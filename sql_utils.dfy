/**
 * Placeholder detection and the "Take to TIP" SQL formatter of `modules/utils.py`.
 *
 * `re.findall`, `re.sub` and `str.replace` are written out as scanners over the
 * characters of the SQL text: a match is tried at every position from left to
 * right, and the scan resumes after each match, as Python's engines do.
 */
module SqlUtils {
  import opened Base
  import opened Text

  // ---------------------------------------------------------------------------
  // detect_sql_parameters: the distinct names of the `@(\w+)` tokens
  // ---------------------------------------------------------------------------

  /** The maximal run of word characters that starts at index `j` (what `\w+` consumes). */
  function WordRun(s: string, j: nat): (w: string)
    requires j <= |s|
    ensures j + |w| <= |s| && w == s[j..j + |w|]
    ensures forall k :: 0 <= k < |w| ==> IsWordChar(w[k])
    ensures j + |w| < |s| ==> !IsWordChar(s[j + |w|])
    decreases |s| - j
  {
    if j < |s| && IsWordChar(s[j]) then [s[j]] + WordRun(s, j + 1) else []
  }

  /** An `@` at index `k` followed by the word run `name` (one match of `@(\w+)`, when `name` is not empty). */
  predicate TokenAt(s: string, k: nat, name: string) {
    k < |s| && s[k] == '@' && WordRun(s, k + 1) == name
  }

  /** `re.findall(r'@(\w+)', s[i..])`: the captured names, left to right. */
  function FindPlaceholders(s: string, i: nat): (names: seq<string>)
    requires i <= |s|
    ensures forall k :: 0 <= k < |names| ==> names[k] != [] && forall m :: 0 <= m < |names[k]| ==> IsWordChar(names[k][m])
    decreases |s| - i
  {
    if i == |s| then []
    else if s[i] == '@' && WordRun(s, i + 1) != [] then
      [WordRun(s, i + 1)] + FindPlaceholders(s, i + 1 + |WordRun(s, i + 1)|)
    else FindPlaceholders(s, i + 1)
  }

  /** Inside a word run there is no `@`, so the scan skips no token. */
  lemma NoTokenInsideRun(s: string, i: nat, k: nat, name: string)
    requires i < |s| && i < k <= i + |WordRun(s, i + 1)|
    ensures !TokenAt(s, k, name)
  {
    assert s[k] == WordRun(s, i + 1)[k - i - 1];
  }

  /** A name is found exactly when some `@` at or after `i` is followed by that maximal word run. */
  lemma {:induction false} FindPlaceholdersIff(s: string, i: nat, name: string)
    requires i <= |s|
    ensures name in FindPlaceholders(s, i) <==> name != [] && exists k :: i <= k && TokenAt(s, k, name)
    decreases |s| - i
  {
    if i < |s| {
      if s[i] == '@' && WordRun(s, i + 1) != [] {
        var w := WordRun(s, i + 1);
        var next := i + 1 + |w|;
        FindPlaceholdersIff(s, next, name);
        assert FindPlaceholders(s, i) == [w] + FindPlaceholders(s, next);
        TokensFromMatch(s, i, name);
      } else {
        FindPlaceholdersIff(s, i + 1, name);
        TokensFromMiss(s, i, name);
      }
    }
  }

  /** Past a token at `i`, the next token starts after its word run. */
  lemma TokensFromMatch(s: string, i: nat, name: string)
    requires i < |s| && s[i] == '@' && WordRun(s, i + 1) != []
    ensures (exists k :: i <= k && TokenAt(s, k, name)) <==>
            name == WordRun(s, i + 1) || exists k :: i + 1 + |WordRun(s, i + 1)| <= k && TokenAt(s, k, name)
  {
    var w := WordRun(s, i + 1);
    var next := i + 1 + |w|;
    if name == w {
      assert TokenAt(s, i, name);
    }
    if exists k :: i <= k && TokenAt(s, k, name) {
      var k :| i <= k && TokenAt(s, k, name);
      if i < k < next {
        NoTokenInsideRun(s, i, k, name);
      }
    }
  }

  /** Without a token of a non-empty name at `i`, the search can start at `i + 1`. */
  lemma TokensFromMiss(s: string, i: nat, name: string)
    requires i < |s| && !(s[i] == '@' && WordRun(s, i + 1) != [])
    ensures name != [] ==>
            ((exists k :: i <= k && TokenAt(s, k, name)) <==> exists k :: i + 1 <= k && TokenAt(s, k, name))
  {
    if name != [] {
      assert !TokenAt(s, i, name);
    }
  }

  /**
   * `detect_sql_parameters(sql)`: `list(set(...))` has no repeated name and no
   * defined order, so the model returns the set itself.
   */
  function DetectSqlParameters(sql: string): (names: set<string>)
    ensures forall name :: name in names <==> name != [] && exists k :: TokenAt(sql, k, name)
  {
    var found := FindPlaceholders(sql, 0);
    DetectedAreTokens(sql, found);
    set name | name in found
  }

  lemma DetectedAreTokens(sql: string, found: seq<string>)
    requires found == FindPlaceholders(sql, 0)
    ensures forall name :: name in found <==> name != [] && exists k :: TokenAt(sql, k, name)
  {
    forall name
      ensures name in found <==> name != [] && exists k :: TokenAt(sql, k, name)
    {
      FindPlaceholdersIff(sql, 0, name);
    }
  }

  /** Every detected name is a non-empty run of word characters that follows an `@` in the SQL. */
  lemma DetectedNamesAreWords(sql: string, name: string)
    requires name in DetectSqlParameters(sql)
    ensures name != [] && forall k :: 0 <= k < |name| ==> IsWordChar(name[k])
    ensures Occurs(sql, "@" + name)
  {
    var k: nat :| TokenAt(sql, k, name);
    assert ("@" + name) <= sql[k..];
    OccursIff(sql, "@" + name);
  }

  // ---------------------------------------------------------------------------
  // The rewrites used by format_sql_for_tip
  // ---------------------------------------------------------------------------

  /** The three kinds of rewrite the formatter performs. */
  datatype Pattern =
    | Literal(text: string)   // str.replace(text, ...)
    | InUnnest(name: string)  // re.sub(r'IN\s+UNNEST\s*\(\s*@name\s*\)', ..., flags=re.IGNORECASE)
    | Unnest(name: string)    // re.sub(r'UNNEST\s*\(\s*@name\s*\)', ..., flags=re.IGNORECASE)

  /** `lit` stands at index `i` of `s`, ignoring the case of ASCII letters. */
  predicate CiPrefixAt(s: string, i: nat, lit: string) {
    i + |lit| <= |s| && forall k :: 0 <= k < |lit| ==> LowerChar(s[i + k]) == LowerChar(lit[k])
  }

  /** The first index at or after `i` that does not hold whitespace (what `\s*` consumes). */
  function SkipSpaces(s: string, i: nat): (j: nat)
    requires i <= |s|
    ensures i <= j <= |s| && AllSpace(s[i..j])
    ensures j < |s| ==> !IsSpace(s[j])
    decreases |s| - i
  {
    if i < |s| && IsSpace(s[i]) then
      var j := SkipSpaces(s, i + 1);
      assert s[i..j] == [s[i]] + s[i + 1..j];
      j
    else i
  }

  /** `\s*\(\s*@name\s*\)` from index `i`: the index just past `)`, or 0 when it does not match. */
  function ParenEnd(s: string, i: nat, name: string): (e: nat)
    requires i <= |s|
    ensures e == 0 || i < e <= |s|
  {
    var c := SkipSpaces(s, i);
    if !CiPrefixAt(s, c, "(") then 0
    else
      var d := SkipSpaces(s, c + 1);
      if !CiPrefixAt(s, d, "@" + name) then 0
      else
        var f := SkipSpaces(s, d + 1 + |name|);
        if !CiPrefixAt(s, f, ")") then 0 else f + 1
  }

  /**
   * Length of the match of `p` at the start of `s`, 0 when there is none.
   * Every regular expression here is deterministic (each `\s` run is followed by
   * a character that is not whitespace), so trying the longest run is enough.
   */
  function MatchLen(s: string, p: Pattern): (m: nat)
    ensures m <= |s|
  {
    match p
    case Literal(text) => if text != [] && text <= s then |text| else 0
    case Unnest(name) => if CiPrefixAt(s, 0, "UNNEST") then ParenEnd(s, 6, name) else 0
    case InUnnest(name) =>
      if !CiPrefixAt(s, 0, "IN") then 0
      else
        var b := SkipSpaces(s, 2);
        if b == 2 || !CiPrefixAt(s, b, "UNNEST") then 0 else ParenEnd(s, b + 6, name)
  }

  /** A whitespace run `w` at `i` followed by a non-space is skipped exactly. */
  lemma {:induction false} SkipSpacesOver(s: string, i: nat, w: string)
    requires i + |w| < |s| && s[i..i + |w|] == w && AllSpace(w) && !IsSpace(s[i + |w|])
    ensures SkipSpaces(s, i) == i + |w|
    decreases |w|
  {
    if w != [] {
      assert s[i] == w[0];
      assert s[i + 1..i + 1 + |w[1..]|] == w[1..];
      SkipSpacesOver(s, i + 1, w[1..]);
    }
  }

  /** `lit` written in any letter case at index `i`. */
  lemma CiPrefixAtPiece(s: string, i: nat, piece: string, lit: string)
    requires i + |piece| <= |s| && s[i..i + |piece|] == piece
    requires |piece| == |lit| && forall k :: 0 <= k < |lit| ==> LowerChar(piece[k]) == LowerChar(lit[k])
    ensures CiPrefixAt(s, i, lit)
  {
    forall k | 0 <= k < |lit| ensures LowerChar(s[i + k]) == LowerChar(lit[k]) {
      assert s[i + k] == piece[k];
    }
  }

  /**
   * A clause `IN<ws>UNNEST<ws>(<ws>@name<ws>)`, its keywords and name in any
   * letter case and its whitespace runs of any length (the first one not
   * empty), is matched whole by the `IN UNNEST` pattern.
   */
  lemma InUnnestMatchesClause(
    s: string, kwIn: string, w1: string, kwUnnest: string, w2: string, w3: string, at: string, w4: string,
    name: string, rest: string)
    requires s == kwIn + w1 + kwUnnest + w2 + "(" + w3 + at + w4 + ")" + rest
    requires |kwIn| == 2 && forall k :: 0 <= k < 2 ==> LowerChar(kwIn[k]) == LowerChar("IN"[k])
    requires |kwUnnest| == 6 && forall k :: 0 <= k < 6 ==> LowerChar(kwUnnest[k]) == LowerChar("UNNEST"[k])
    requires |at| == 1 + |name| && forall k :: 0 <= k < |at| ==> LowerChar(at[k]) == LowerChar(("@" + name)[k])
    requires w1 != [] && AllSpace(w1) && AllSpace(w2) && AllSpace(w3) && AllSpace(w4)
    ensures MatchLen(s, InUnnest(name)) == |s| - |rest|
  {
    var head := kwIn + w1 + kwUnnest;
    ParenLayout(s, head, w2, w3, at, w4, rest);
    ParenClauseAt(s, |head|, w2, w3, at, w4, name);
    HeadLayout(s, kwIn, w1, kwUnnest);
    InUnnestAt(s, kwIn, w1, kwUnnest, name);
  }

  /**
   * A clause `UNNEST<ws>(<ws>@name<ws>)`, its keyword and name in any letter
   * case and its whitespace runs of any length, is matched whole by the
   * `UNNEST` pattern.
   */
  lemma UnnestMatchesClause(
    s: string, kwUnnest: string, w2: string, w3: string, at: string, w4: string, name: string, rest: string)
    requires s == kwUnnest + w2 + "(" + w3 + at + w4 + ")" + rest
    requires |kwUnnest| == 6 && forall k :: 0 <= k < 6 ==> LowerChar(kwUnnest[k]) == LowerChar("UNNEST"[k])
    requires |at| == 1 + |name| && forall k :: 0 <= k < |at| ==> LowerChar(at[k]) == LowerChar(("@" + name)[k])
    requires AllSpace(w2) && AllSpace(w3) && AllSpace(w4)
    ensures MatchLen(s, Unnest(name)) == |s| - |rest|
  {
    ParenLayout(s, kwUnnest, w2, w3, at, w4, rest);
    ParenClauseAt(s, |kwUnnest|, w2, w3, at, w4, name);
    assert s[0..|kwUnnest|] == kwUnnest;
    CiPrefixAtPiece(s, 0, kwUnnest, "UNNEST");
  }

  /** `w` stands at index `i` of `s`. */
  predicate PieceAt(s: string, i: nat, w: string) {
    i + |w| <= |s| && s[i..i + |w|] == w
  }

  /** Where each piece of `(<ws>@name<ws>)` sits in a text that starts with `head` and then that clause. */
  lemma ParenLayout(s: string, head: string, w2: string, w3: string, at: string, w4: string, rest: string)
    requires s == head + w2 + "(" + w3 + at + w4 + ")" + rest
    ensures head <= s
    ensures PieceAt(s, |head|, w2) && PieceAt(s, |head| + |w2|, "(") && PieceAt(s, |head| + |w2| + 1, w3)
    ensures PieceAt(s, |head| + |w2| + 1 + |w3|, at) && PieceAt(s, |head| + |w2| + 1 + |w3| + |at|, w4)
    ensures PieceAt(s, |head| + |w2| + 1 + |w3| + |at| + |w4|, ")")
    ensures |s| - |rest| == |head| + |w2| + 1 + |w3| + |at| + |w4| + 1
  {
    var p3 := head + w2;
    var p4 := p3 + "(";
    var p5 := p4 + w3;
    var p6 := p5 + at;
    var p7 := p6 + w4;
    assert s == p7 + ")" + rest;
    Slot(s, p7, ")");
    Slot(s, p6, w4);
    Slot(s, p5, at);
    Slot(s, p4, w3);
    Slot(s, p3, "(");
    Slot(s, head, w2);
  }

  /** Where the keywords and the first whitespace run of `IN<ws>UNNEST` sit in a text that starts with them. */
  lemma HeadLayout(s: string, kwIn: string, w1: string, kwUnnest: string)
    requires kwIn + w1 + kwUnnest <= s
    ensures PieceAt(s, 0, kwIn) && PieceAt(s, |kwIn|, w1) && PieceAt(s, |kwIn| + |w1|, kwUnnest)
  {
    Slot(s, kwIn + w1, kwUnnest);
    Slot(s, kwIn, w1);
    Slot(s, [], kwIn);
  }

  /** `IN<ws>UNNEST` at the start of `s`, followed by a parenthesised parameter that matches. */
  lemma InUnnestAt(s: string, kwIn: string, w1: string, kwUnnest: string, name: string)
    requires PieceAt(s, 0, kwIn) && PieceAt(s, |kwIn|, w1) && PieceAt(s, |kwIn| + |w1|, kwUnnest)
    requires |kwIn| == 2 && forall k :: 0 <= k < 2 ==> LowerChar(kwIn[k]) == LowerChar("IN"[k])
    requires |kwUnnest| == 6 && forall k :: 0 <= k < 6 ==> LowerChar(kwUnnest[k]) == LowerChar("UNNEST"[k])
    requires w1 != [] && AllSpace(w1)
    requires ParenEnd(s, |kwIn| + |w1| + |kwUnnest|, name) != 0
    ensures MatchLen(s, InUnnest(name)) == ParenEnd(s, |kwIn| + |w1| + |kwUnnest|, name)
  {
    var b := 2 + |w1|;
    CiPrefixAtPiece(s, 0, kwIn, "IN");
    CiPrefixAtPiece(s, b, kwUnnest, "UNNEST");
    assert LowerChar(s[b]) == 'u';
    SkipSpacesOver(s, 2, w1);
  }

  /** `\s*\(\s*@name\s*\)` matched from index `i`, the pieces given by position. */
  lemma ParenClauseAt(s: string, i: nat, w2: string, w3: string, at: string, w4: string, name: string)
    requires PieceAt(s, i, w2) && PieceAt(s, i + |w2|, "(") && PieceAt(s, i + |w2| + 1, w3)
    requires PieceAt(s, i + |w2| + 1 + |w3|, at) && PieceAt(s, i + |w2| + 1 + |w3| + |at|, w4)
    requires PieceAt(s, i + |w2| + 1 + |w3| + |at| + |w4|, ")")
    requires |at| == 1 + |name| && forall k :: 0 <= k < |at| ==> LowerChar(at[k]) == LowerChar(("@" + name)[k])
    requires AllSpace(w2) && AllSpace(w3) && AllSpace(w4)
    ensures ParenEnd(s, i, name) == i + |w2| + 1 + |w3| + |at| + |w4| + 1
  {
    var c := i + |w2|;
    var d := c + 1 + |w3|;
    var e := d + |at|;
    var f := e + |w4|;
    assert s[c] == s[c..c + 1][0] == '(';
    assert s[f] == s[f..f + 1][0] == ')';
    CiPrefixAtPiece(s, c, "(", "(");
    CiPrefixAtPiece(s, f, ")", ")");
    CiPrefixAtPiece(s, d, at, "@" + name);
    assert LowerChar(s[d]) == '@';
    SkipSpacesOver(s, i, w2);
    SkipSpacesOver(s, c + 1, w3);
    SkipSpacesOver(s, e, w4);
    ParenEndAt(s, i, c, d, e, f, name);
  }

  /** The `\s*\(\s*@name\s*\)` tail matched piece by piece. */
  lemma ParenEndAt(s: string, i: nat, c: nat, d: nat, e: nat, f: nat, name: string)
    requires i <= c < d && e == d + 1 + |name| && e <= f < |s|
    requires SkipSpaces(s, i) == c && CiPrefixAt(s, c, "(")
    requires SkipSpaces(s, c + 1) == d && CiPrefixAt(s, d, "@" + name)
    requires SkipSpaces(s, e) == f && CiPrefixAt(s, f, ")")
    ensures ParenEnd(s, i, name) == f + 1
  {
  }

  /** Where `piece` sits in a text that starts with `pre + piece`. */
  lemma Slot(s: string, pre: string, piece: string)
    requires pre + piece <= s
    ensures pre <= s && s[|pre|..|pre| + |piece|] == piece
  {
    assert (pre + piece)[..|pre|] == pre;
  }

  /**
   * Replace every match, scanning left to right without overlaps (`str.replace` /
   * `re.sub`). `len(t)` is the length of the match at the start of `t`, 0 when
   * there is none; the scan is stated once for any such matcher.
   */
  function RewriteBy(s: string, len: string -> nat, rep: string): string
    decreases |s|
  {
    if s == [] then []
    else if 0 < len(s) <= |s| then rep + RewriteBy(s[len(s)..], len, rep)
    else [s[0]] + RewriteBy(s[1..], len, rep)
  }

  /** A matcher never reports a match longer than the text. */
  ghost predicate Sound(len: string -> nat) {
    forall t :: len(t) <= |t|
  }

  /** The matcher of a pattern. */
  function Matcher(p: Pattern): string -> nat {
    t => MatchLen(t, p)
  }

  lemma MatcherSound(p: Pattern)
    ensures Sound(Matcher(p))
  {
    forall t ensures Matcher(p)(t) <= |t| {
      assert Matcher(p)(t) == MatchLen(t, p);
    }
  }

  /** Replace every match of `p`. */
  function Rewrite(s: string, p: Pattern, rep: string): string {
    RewriteBy(s, Matcher(p), rep)
  }

  /** Where the matcher matches nowhere, the text is left as it is. */
  lemma {:induction false} RewriteWithoutMatch(s: string, len: string -> nat, rep: string)
    requires forall k :: 0 <= k < |s| ==> len(s[k..]) == 0
    ensures RewriteBy(s, len, rep) == s
  {
    if s != [] {
      assert s[0..] == s;
      forall k | 0 <= k < |s| - 1 ensures len(s[1..][k..]) == 0 {
        assert s[1..][k..] == s[k + 1..];
      }
      RewriteWithoutMatch(s[1..], len, rep);
    }
  }

  /** A literal that does not occur is never replaced. */
  lemma LiteralAbsentUnchanged(s: string, q: string, rep: string)
    requires !Occurs(s, q)
    ensures Rewrite(s, Literal(q), rep) == s
  {
    OccursIff(s, q);
    forall k | 0 <= k < |s| ensures Matcher(Literal(q))(s[k..]) == 0 {
      assert !(q <= s[k..]);
    }
    RewriteWithoutMatch(s, Matcher(Literal(q)), rep);
  }

  /**
   * The first match decides: text before it is copied, the match becomes `rep`,
   * and the scan goes on after it.
   */
  lemma {:induction false} RewriteAtFirstMatch(pre: string, m: string, post: string, len: string -> nat, rep: string)
    requires m != [] && len(m + post) == |m|
    requires forall k :: 0 <= k < |pre| ==> len((pre + m + post)[k..]) == 0
    ensures RewriteBy(pre + m + post, len, rep) == pre + rep + RewriteBy(post, len, rep)
    decreases |pre|
  {
    var s := pre + m + post;
    if pre == [] {
      assert s == m + post;
      assert s[|m|..] == post;
    } else {
      var t := pre[1..] + m + post;
      assert len(s) == 0 by { assert s[0..] == s; }
      assert s[1..] == t;
      forall k | 0 <= k < |pre| - 1 ensures len(t[k..]) == 0 {
        assert t[k..] == s[k + 1..];
      }
      RewriteAtFirstMatch(pre[1..], m, post, len, rep);
      assert [pre[0]] + pre[1..] == pre;
    }
  }

  /** A prefix `w` of the rewritten text that cannot hold the first character of `rep` was already a prefix of the input. */
  lemma {:induction false} RewritePrefixFromInput(s: string, len: string -> nat, rep: string, w: string)
    requires rep != [] && rep[0] !in w
    ensures w <= RewriteBy(s, len, rep) ==> w <= s
    decreases |s|
  {
    if w != [] && s != [] {
      if 0 < len(s) <= |s| {
        assert RewriteBy(s, len, rep)[0] == rep[0];
      } else {
        assert RewriteBy(s, len, rep) == [s[0]] + RewriteBy(s[1..], len, rep);
        RewritePrefixFromInput(s[1..], len, rep, w[1..]);
      }
    }
  }

  /**
   * After the rewrite, `q` occurs nowhere, provided every occurrence of `q` in
   * the input is where the matcher matches, `rep` cannot start `q`, and `q`
   * cannot start inside `rep`.
   */
  lemma {:induction false} RewriteLeavesNoOccurrence(s: string, len: string -> nat, rep: string, q: string)
    requires Sound(len)
    requires q != [] && rep != []
    requires q[0] !in rep && rep[0] !in q
    requires forall k :: 0 <= k <= |s| && q <= s[k..] ==> len(s[k..]) > 0
    ensures !Occurs(RewriteBy(s, len, rep), q)
    decreases |s|
  {
    if s != [] {
      assert len(s) <= |s|;
      var m := if len(s) > 0 then len(s) else 1;
      var tail := s[m..];
      forall k | 0 <= k <= |tail| && q <= tail[k..] ensures len(tail[k..]) > 0 {
        assert tail[k..] == s[m + k..];
      }
      RewriteLeavesNoOccurrence(tail, len, rep, q);
      if len(s) > 0 {
        NoOccurrenceAfter(rep, RewriteBy(tail, len, rep), q);
      } else {
        assert s[0..] == s;
        RewritePrefixFromInput(s, len, rep, q);
        assert RewriteBy(s, len, rep)[1..] == RewriteBy(tail, len, rep);
      }
    }
  }

  /** `q` cannot start inside `pre` when its first character is not there, so it occurs in `pre + t` only if it occurs in `t`. */
  lemma {:induction false} NoOccurrenceAfter(pre: string, t: string, q: string)
    requires q != [] && q[0] !in pre && !Occurs(t, q)
    ensures !Occurs(pre + t, q)
    decreases |pre|
  {
    if pre == [] {
      assert pre + t == t;
    } else {
      assert pre[0] in pre;
      assert (pre + t)[1..] == pre[1..] + t;
      NoOccurrenceAfter(pre[1..], t, q);
    }
  }

  /** A character found in neither the input nor `rep` is not in the output. */
  lemma {:induction false} RewriteKeepsCharOut(s: string, len: string -> nat, rep: string, c: char)
    requires c !in s && c !in rep
    ensures c !in RewriteBy(s, len, rep)
    decreases |s|
  {
    if s != [] {
      if 0 < len(s) <= |s| {
        RewriteKeepsCharOut(s[len(s)..], len, rep, c);
      } else {
        RewriteKeepsCharOut(s[1..], len, rep, c);
      }
    }
  }

  // ---------------------------------------------------------------------------
  // Backtick removal: re.sub(r'`([^`]+)`', r'\1', sql)
  // ---------------------------------------------------------------------------

  /** Drop the backticks around each non-empty backtick-free segment; a lone or doubled backtick stays. */
  function RemoveBackticks(s: string): string
    decreases |s|
  {
    if s == [] then []
    else if s[0] != '`' then [s[0]] + RemoveBackticks(s[1..])
    else
      var n := IndexOf(s[1..], '`');
      if 0 < n < |s| - 1 then s[1..n + 1] + RemoveBackticks(s[n + 2..])
      else "`" + RemoveBackticks(s[1..])
  }

  lemma {:induction false} IndexOfAfter(a: string, c: char, b: string)
    requires c !in a
    ensures IndexOf(a + [c] + b, c) == |a|
    decreases |a|
  {
    if a != [] {
      assert a[0] in a;
      assert (a + [c] + b)[1..] == a[1..] + [c] + b;
      IndexOfAfter(a[1..], c, b);
    }
  }

  /** A character other than a backtick is copied. */
  lemma RemoveBackticksCons(c: char, t: string)
    requires c != '`'
    ensures RemoveBackticks([c] + t) == [c] + RemoveBackticks(t)
  {
    assert ([c] + t)[1..] == t;
  }

  /** An opening backtick whose segment closes is dropped with its partner. */
  lemma RemoveBackticksOpen(body: string, post: string)
    requires '`' !in body && body != []
    ensures RemoveBackticks("`" + body + "`" + post) == body + RemoveBackticks(post)
  {
    var s := "`" + body + "`" + post;
    assert s[1..] == body + "`" + post;
    IndexOfAfter(body, '`', post);
    assert s[1..|body| + 1] == body;
    assert s[|body| + 2..] == post;
  }

  /** A quoted segment loses its two backticks and keeps its content. */
  lemma {:induction false} RemoveBackticksSegment(pre: string, body: string, post: string)
    requires '`' !in pre && '`' !in body && body != []
    ensures RemoveBackticks(pre + "`" + body + "`" + post) == pre + body + RemoveBackticks(post)
    decreases |pre|
  {
    var seg := "`" + body + "`" + post;
    assert pre + "`" + body + "`" + post == pre + seg;
    if pre == [] {
      assert pre + seg == seg;
      RemoveBackticksOpen(body, post);
    } else {
      var c := pre[0];
      assert c in pre;
      assert pre + seg == [c] + (pre[1..] + seg);
      RemoveBackticksCons(c, pre[1..] + seg);
      RemoveBackticksSegment(pre[1..], body, post);
      assert pre[1..] + "`" + body + "`" + post == pre[1..] + seg;
      assert pre == [c] + pre[1..];
    }
  }

  /** The text with every backtick deleted. */
  function Untick(s: string): (r: string)
    ensures '`' !in r
    decreases |s|
  {
    if s == [] then [] else (if s[0] == '`' then [] else [s[0]]) + Untick(s[1..])
  }

  lemma {:induction false} UntickAppend(a: string, b: string)
    ensures Untick(a + b) == Untick(a) + Untick(b)
    decreases |a|
  {
    if a == [] {
      assert a + b == b;
    } else {
      assert (a + b)[1..] == a[1..] + b;
      UntickAppend(a[1..], b);
    }
  }

  lemma UntickCons(c: char, t: string)
    ensures Untick([c] + t) == (if c == '`' then [] else [c]) + Untick(t)
  {
    assert ([c] + t)[1..] == t;
  }

  /** Removing backticks never touches another character: apart from backticks, the text is the same. */
  lemma {:induction false} RemoveBackticksKeepsText(s: string)
    ensures Untick(RemoveBackticks(s)) == Untick(s)
    decreases |s|
  {
    if s != [] {
      assert s == [s[0]] + s[1..];
      var n := IndexOf(s[1..], '`');
      if s[0] != '`' {
        RemoveBackticksCons(s[0], s[1..]);
        RemoveBackticksKeepsText(s[1..]);
        UntickCons(s[0], RemoveBackticks(s[1..]));
        UntickCons(s[0], s[1..]);
      } else if 0 < n < |s| - 1 {
        var body := s[1..n + 1];
        var rest := s[n + 2..];
        assert s[1..][..n] == body;
        assert s == "`" + body + "`" + rest;
        RemoveBackticksKeepsText(rest);
        PairRemoved(body, rest);
        PairUnticked(body, rest);
      } else {
        assert RemoveBackticks(s) == "`" + RemoveBackticks(s[1..]);
        RemoveBackticksKeepsText(s[1..]);
        UntickCons('`', RemoveBackticks(s[1..]));
        UntickCons('`', s[1..]);
      }
    }
  }

  /** A closed pair of backticks, removed and then unticked, leaves its body. */
  lemma PairRemoved(body: string, rest: string)
    requires '`' !in body && body != []
    ensures Untick(RemoveBackticks("`" + body + "`" + rest)) == body + Untick(RemoveBackticks(rest))
  {
    RemoveBackticksOpen(body, rest);
    UntickNoop(body);
    UntickAppend(body, RemoveBackticks(rest));
  }

  /** A closed pair of backticks, unticked, leaves its body. */
  lemma PairUnticked(body: string, rest: string)
    requires '`' !in body
    ensures Untick("`" + body + "`" + rest) == body + Untick(rest)
  {
    var front := "`" + body;
    var pair := front + "`";
    UntickNoop(body);
    UntickCons('`', body);
    assert Untick(front) == body;
    UntickCons('`', []);
    assert ['`'] + [] == "`";
    UntickAppend(front, "`");
    assert Untick(pair) == body;
    UntickAppend(pair, rest);
  }

  lemma {:induction false} UntickNoop(s: string)
    requires '`' !in s
    ensures Untick(s) == s
    decreases |s|
  {
    if s != [] {
      assert s[0] in s;
      UntickNoop(s[1..]);
    }
  }

  /** Text without backticks passes unchanged. */
  lemma {:induction false} RemoveBackticksNoop(s: string)
    requires '`' !in s
    ensures RemoveBackticks(s) == s
    decreases |s|
  {
    if s != [] {
      assert s[0] in s;
      RemoveBackticksNoop(s[1..]);
    }
  }

  // ---------------------------------------------------------------------------
  // SQL literals
  // ---------------------------------------------------------------------------

  /** `f"'{v}'"` */
  function Quote(v: string): string { "'" + v + "'" }

  /** `", ".join([f"'{v}'" for v in values])` */
  function QuotedList(values: seq<string>): string
  {
    Join(QuoteEach(values), ", ")
  }

  /** `[f"'{v}'" for v in values]` */
  function QuoteEach(values: seq<string>): (quoted: seq<string>)
    ensures |quoted| == |values|
    ensures forall k :: 0 <= k < |values| ==> quoted[k] == Quote(values[k])
  {
    if values == [] then [] else [Quote(values[0])] + QuoteEach(values[1..])
  }

  /** `value.replace("'", "''")`: the SQL escape of a single quote. */
  function EscapeQuotes(v: string): string {
    Rewrite(v, Literal("'"), "''")
  }

  /** How a SQL engine reads the inside of a `'...'` literal: each `''` stands for one quote. */
  function UnescapeQuotes(s: string): string
    decreases |s|
  {
    if s == [] then []
    else if |s| >= 2 && s[0] == '\'' && s[1] == '\'' then "'" + UnescapeQuotes(s[2..])
    else [s[0]] + UnescapeQuotes(s[1..])
  }

  /** The escaped applicant name reads back, inside the quotes, as exactly the original name. */
  lemma {:induction false} EscapeQuotesRoundTrip(v: string)
    ensures UnescapeQuotes(EscapeQuotes(v)) == v
    decreases |v|
  {
    if v != [] {
      EscapeQuotesRoundTrip(v[1..]);
      if v[0] == '\'' {
        assert Matcher(Literal("'"))(v) == 1;
        var e := EscapeQuotes(v);
        assert e == "''" + EscapeQuotes(v[1..]);
        assert e[2..] == EscapeQuotes(v[1..]);
      } else {
        assert Matcher(Literal("'"))(v) == 0;
        var e := EscapeQuotes(v);
        assert e == [v[0]] + EscapeQuotes(v[1..]);
        assert e[1..] == EscapeQuotes(v[1..]);
        assert v == [v[0]] + v[1..];
      }
    }
  }

  /** Escaping leaves no lone quote: every quote of the escaped text is part of a `''` pair. */
  lemma {:induction false} EscapeQuotesDoubles(v: string)
    ensures EscapeQuotes(v) == EscapedChars(v)
    decreases |v|
  {
    if v != [] {
      EscapeQuotesDoubles(v[1..]);
      if v[0] == '\'' {
        assert Matcher(Literal("'"))(v) == 1;
      } else {
        assert Matcher(Literal("'"))(v) == 0;
      }
    }
  }

  /** Character by character: a quote becomes two quotes, anything else stays. */
  function EscapedChars(v: string): string
    decreases |v|
  {
    if v == [] then [] else (if v[0] == '\'' then "''" else [v[0]]) + EscapedChars(v[1..])
  }

  // ---------------------------------------------------------------------------
  // format_sql_for_tip
  // ---------------------------------------------------------------------------

  /**
   * The keys of `params` that the formatter reads. `None` is a missing key or a
   * `None` value; an empty list is a missing, `None` or empty list, which the
   * source's truthiness test treats alike.
   */
  datatype TipParams = TipParams(
    yearStart: Option<int>,
    yearEnd: Option<int>,
    jurisdictions: seq<string>,
    techField: Option<int>,
    techSector: Option<string>,
    applicantName: Option<string>,
    ipcClass: Option<string>,
    competitors: seq<string>)

  const NoParams := TipParams(None, None, [], None, None, None, None, [])

  /** No value contains a backslash, which `re.sub` would read as an escape in its replacement. */
  predicate ListsLiteral(params: TipParams) {
    (forall k :: 0 <= k < |params.jurisdictions| ==> '\\' !in params.jurisdictions[k])
    && (forall k :: 0 <= k < |params.competitors| ==> '\\' !in params.competitors[k])
  }

  /** No supplied text value contains `@`, so no substituted value can itself look like a placeholder. */
  predicate AtFree(params: TipParams) {
    (params.techSector.Some? ==> '@' !in params.techSector.value)
    && (params.applicantName.Some? ==> '@' !in params.applicantName.value)
    && (params.ipcClass.Some? ==> '@' !in params.ipcClass.value)
    && (forall k :: 0 <= k < |params.jurisdictions| ==> '@' !in params.jurisdictions[k])
    && (forall k :: 0 <= k < |params.competitors| ==> '@' !in params.competitors[k])
  }

  /** A placeholder literal: `@` followed by lower-case letters and underscores. */
  predicate IsPlaceholderText(q: string) {
    |q| >= 2 && q[0] == '@' && forall k :: 1 <= k < |q| ==> IsAsciiLower(q[k]) || q[k] == '_'
  }

  /** A replacement text that cannot start or hold a placeholder literal. */
  predicate SafeReplacement(rep: string) {
    rep != [] && '@' !in rep && rep[0] != '@' && rep[0] != '_' && !IsAsciiLower(rep[0])
  }

  /** Every placeholder of `done` is a placeholder literal that no longer occurs in `s`. */
  predicate Resolved(s: string, done: seq<string>)
    decreases |done|
  {
    done == [] || (IsPlaceholderText(done[0]) && !Occurs(s, done[0]) && Resolved(s, done[1..]))
  }

  lemma {:induction false} ResolvedIff(s: string, done: seq<string>)
    ensures Resolved(s, done) <==>
              forall k :: 0 <= k < |done| ==> IsPlaceholderText(done[k]) && !Occurs(s, done[k])
    decreases |done|
  {
    if done != [] {
      ResolvedIff(s, done[1..]);
      assert forall k :: 1 <= k < |done| ==> done[k] == done[1..][k - 1];
    }
  }

  /** Substituting a safe replacement for `q` removes `q` and brings back no placeholder already gone. */
  lemma ReplaceResolves(s: string, q: string, rep: string, done: seq<string>)
    requires IsPlaceholderText(q) && SafeReplacement(rep) && Resolved(s, done)
    ensures Resolved(Rewrite(s, Literal(q), rep), [q] + done)
  {
    forall k | 0 <= k <= |s| && q <= s[k..] ensures Matcher(Literal(q))(s[k..]) > 0 {
    }
    RewriteKeepsResolved(s, Literal(q), rep, done);
    PlaceholderAvoids(q, rep);
    MatcherSound(Literal(q));
    RewriteLeavesNoOccurrence(s, Matcher(Literal(q)), rep, q);
    assert ([q] + done)[1..] == done;
  }

  lemma PlaceholderAvoids(q: string, rep: string)
    requires IsPlaceholderText(q) && SafeReplacement(rep)
    ensures q != [] && q[0] !in rep && rep[0] !in q
  {
    assert forall k :: 0 <= k < |q| ==> q[k] != rep[0];
  }

  /** A later safe rewrite cannot bring back a placeholder that is already gone. */
  lemma RewriteKeepsResolved(s: string, p: Pattern, rep: string, done: seq<string>)
    requires SafeReplacement(rep) && Resolved(s, done)
    ensures Resolved(Rewrite(s, p, rep), done)
  {
    ResolvedIff(s, done);
    ResolvedIff(Rewrite(s, p, rep), done);
    forall k | 0 <= k < |done| ensures !Occurs(Rewrite(s, p, rep), done[k]) {
      var q := done[k];
      PlaceholderAvoids(q, rep);
      OccursIff(s, q);
      MatcherSound(p);
      RewriteLeavesNoOccurrence(s, Matcher(p), rep, q);
    }
  }

  lemma JoinKeepsCharOut(parts: seq<string>, sep: string, c: char)
    requires c !in sep && forall k :: 0 <= k < |parts| ==> c !in parts[k]
    ensures c !in Join(parts, sep)
  {
    if |parts| > 1 {
      JoinKeepsCharOut(parts[1..], sep, c);
    }
  }

  lemma QuotedListSafe(values: seq<string>)
    requires forall k :: 0 <= k < |values| ==> '@' !in values[k]
    ensures '@' !in QuotedList(values)
  {
    JoinKeepsCharOut(QuoteEach(values), ", ", '@');
  }

  lemma IntTextSafe(i: int)
    ensures SafeReplacement(IntToString(i))
  {
    var r := IntToString(i);
    assert forall k :: 0 <= k < |r| ==> r[k] != '@';
  }

  /** `q` in front of `done` when `supplied` holds. */
  function Prepend(supplied: bool, q: string, done: seq<string>): seq<string> {
    if supplied then [q] + done else done
  }

  /** The placeholders whose parameter is supplied, each of which the formatter substitutes with `str.replace`. */
  function Supplied(params: TipParams): seq<string> {
    Prepend(params.ipcClass.Some?, "@ipc_class",
    Prepend(params.applicantName.Some?, "@applicant_name",
    Prepend(params.techSector.Some?, "@tech_sector",
    Prepend(params.techField.Some?, "@tech_field",
    Prepend(params.yearEnd.Some?, "@year_end",
    Prepend(params.yearStart.Some?, "@year_start", []))))))
  }

  /** The placeholders the formatter substitutes one by one. */
  lemma PlaceholderLiterals()
    ensures IsPlaceholderText("@year_start") && IsPlaceholderText("@year_end")
    ensures IsPlaceholderText("@tech_field") && IsPlaceholderText("@tech_sector")
    ensures IsPlaceholderText("@applicant_name") && IsPlaceholderText("@ipc_class")
  {
  }

  // ---------------------------------------------------------------------------
  // The formatter as a sequence of substitutions
  // ---------------------------------------------------------------------------

  /** One step of the formatter: when `active`, every match of `pattern` becomes `rep`. */
  datatype Substitution = Substitution(active: bool, pattern: Pattern, rep: string)

  function ApplyOne(s: string, u: Substitution): string {
    if u.active then Rewrite(s, u.pattern, u.rep) else s
  }

  /** The substitutions applied one after the other. */
  function ApplyAll(s: string, subs: seq<Substitution>): string
    decreases |subs|
  {
    if subs == [] then s else ApplyAll(ApplyOne(s, subs[0]), subs[1..])
  }

  /** `str(v)` of a supplied integer parameter (the text of an absent one is never used). */
  function IntText(v: Option<int>): string {
    if v.Some? then IntToString(v.value) else ""
  }

  /** `f"'{v}'"` of a supplied text parameter. */
  function QuotedText(v: Option<string>): string {
    if v.Some? then Quote(v.value) else ""
  }

  /** The applicant name with its quotes doubled, then quoted. */
  function EscapedText(v: Option<string>): string {
    if v.Some? then Quote(EscapeQuotes(v.value)) else ""
  }

  /** The year, jurisdiction and technology-field steps of `format_sql_for_tip`, in the source's order. */
  function YearsAndFieldSubstitutions(params: TipParams): seq<Substitution> {
    [ Substitution(params.yearStart.Some?, Literal("@year_start"), IntText(params.yearStart)),
      Substitution(params.yearEnd.Some?, Literal("@year_end"), IntText(params.yearEnd)),
      Substitution(params.jurisdictions != [], InUnnest("jurisdictions"), "IN (" + QuotedList(params.jurisdictions) + ")"),
      Substitution(params.techField.Some?, Literal("@tech_field"), IntText(params.techField)) ]
  }

  /** The sector, applicant, IPC and competitor steps, in the source's order. */
  function NameSubstitutions(params: TipParams): seq<Substitution> {
    [ Substitution(params.techSector.Some?, Literal("@tech_sector"), QuotedText(params.techSector)),
      Substitution(params.applicantName.Some?, Literal("@applicant_name"), EscapedText(params.applicantName)),
      Substitution(params.ipcClass.Some?, Literal("@ipc_class"), QuotedText(params.ipcClass)),
      Substitution(params.competitors != [], Unnest("competitors"), "(" + QuotedList(params.competitors) + ")") ]
  }

  function Substitutions(params: TipParams): seq<Substitution> {
    YearsAndFieldSubstitutions(params) + NameSubstitutions(params)
  }

  /** What `format_sql_for_tip(sql, params)` returns. */
  function FormattedSql(sql: string, params: TipParams): string {
    Strip(ApplyAll(RemoveBackticks(sql), Substitutions(params)))
  }

  /** Running two lists of steps is running their concatenation. */
  lemma {:induction false} ApplyAllAppend(s: string, a: seq<Substitution>, b: seq<Substitution>)
    ensures ApplyAll(s, a + b) == ApplyAll(ApplyAll(s, a), b)
    decreases |a|
  {
    if a == [] {
      assert a + b == b;
    } else {
      assert (a + b)[0] == a[0] && (a + b)[1..] == a[1..] + b;
      ApplyAllAppend(ApplyOne(s, a[0]), a[1..], b);
    }
  }

  /** Four steps, one after the other. */
  lemma ApplyFour(s: string, subs: seq<Substitution>)
    requires |subs| == 4
    ensures ApplyAll(s, subs) == ApplyOne(ApplyOne(ApplyOne(ApplyOne(s, subs[0]), subs[1]), subs[2]), subs[3])
  {
    var s1 := ApplyOne(s, subs[0]);
    var s2 := ApplyOne(s1, subs[1]);
    var s3 := ApplyOne(s2, subs[2]);
    assert ApplyAll(s, subs) == ApplyAll(s1, subs[1..]);
    assert ApplyAll(s1, subs[1..]) == ApplyAll(s2, subs[2..]);
    assert ApplyAll(s2, subs[2..]) == ApplyAll(s3, subs[3..]);
    assert ApplyAll(s3, subs[3..]) == ApplyAll(ApplyOne(s3, subs[3]), subs[3..][1..]);
    assert subs[3..][1..] == [];
  }

  // ---------------------------------------------------------------------------
  // Which step touches which placeholder
  // ---------------------------------------------------------------------------

  /** The text the eight steps look for, in order; each starts with `@`. */
  const Placeholders: seq<string> :=
    ["@year_start", "@year_end", "@" + "jurisdictions", "@tech_field",
     "@tech_sector", "@applicant_name", "@ipc_class", "@" + "competitors"]

  /** The `@name` a pattern cannot match without. */
  function Tag(p: Pattern): string {
    match p
    case Literal(text) => text
    case InUnnest(name) => "@" + name
    case Unnest(name) => "@" + name
  }

  /** Every `@` of `s` begins `q`, letter case aside. */
  predicate AtsBegin(s: string, q: string) {
    forall k :: 0 <= k < |s| && s[k] == '@' ==> CiPrefixAt(s, k, q)
  }

  /** `a` and `b` differ at index `i`, letter case aside. */
  predicate CiDiffersAt(a: string, b: string, i: nat) {
    i < |a| && i < |b| && LowerChar(a[i]) != LowerChar(b[i])
  }

  /** The tag of `p` starts with `@` and differs from `q`, so `p` cannot match where every `@` begins `q`. */
  ghost predicate Avoids(p: Pattern, q: string) {
    Tag(p) != [] && Tag(p)[0] == '@' && exists i :: CiDiffersAt(Tag(p), q, i)
  }

  /** The steps look for the placeholders in order; all but the two list steps look for them literally. */
  lemma SubstitutionTags(params: TipParams)
    ensures |Substitutions(params)| == 8
    ensures forall j :: 0 <= j < 8 ==> Tag(Substitutions(params)[j].pattern) == Placeholders[j]
    ensures forall j :: 0 <= j < 8 && j != 2 && j != 7 ==> Substitutions(params)[j].pattern == Literal(Placeholders[j])
    ensures Substitutions(params)[2].pattern == InUnnest("jurisdictions")
    ensures Substitutions(params)[7].pattern == Unnest("competitors")
  {
    var subs := Substitutions(params);
    forall j | 0 <= j < 8 ensures Tag(subs[j].pattern) == Placeholders[j] {
      assert j == 0 || j == 1 || j == 2 || j == 3 || j == 4 || j == 5 || j == 6 || j == 7;
    }
    forall j | 0 <= j < 8 && j != 2 && j != 7 ensures subs[j].pattern == Literal(Placeholders[j]) {
      assert j == 0 || j == 1 || j == 3 || j == 4 || j == 5 || j == 6;
    }
  }

  /** Any two placeholders differ within the shorter one. */
  lemma PlaceholdersDiffer(i: nat, j: nat)
    requires i < 8 && j < 8 && i != j
    ensures Placeholders[i] != [] && Placeholders[i][0] == '@'
    ensures exists n :: CiDiffersAt(Placeholders[i], Placeholders[j], n)
  {
    assert i == 0 || i == 1 || i == 2 || i == 3 || i == 4 || i == 5 || i == 6 || i == 7;
    if (i == 0 && j == 1) || (i == 1 && j == 0) || (i == 3 && j == 4) || (i == 4 && j == 3) {
      assert CiDiffersAt(Placeholders[i], Placeholders[j], 6);
    } else {
      assert j == 0 || j == 1 || j == 2 || j == 3 || j == 4 || j == 5 || j == 6 || j == 7;
      assert CiDiffersAt(Placeholders[i], Placeholders[j], 1);
    }
  }

  /** Every step but step `i` avoids the placeholder of step `i`. */
  lemma OtherStepsAvoid(params: TipParams, i: nat)
    requires i < 8
    ensures forall j :: 0 <= j < |Substitutions(params)| && j != i ==> Avoids(Substitutions(params)[j].pattern, Placeholders[i])
  {
    SubstitutionTags(params);
    forall j | 0 <= j < |Substitutions(params)| && j != i
      ensures Avoids(Substitutions(params)[j].pattern, Placeholders[i])
    {
      PlaceholdersDiffer(j, i);
    }
  }

  /** A match of any pattern holds its tag somewhere. */
  lemma MatchHasTag(t: string, p: Pattern)
    requires MatchLen(t, p) > 0
    ensures exists d :: CiPrefixAt(t, d, Tag(p))
  {
    match p
    case Literal(text) =>
      assert forall k :: 0 <= k < |text| ==> t[k] == text[k];
      assert CiPrefixAt(t, 0, text) && Tag(p) == text;
    case Unnest(name) =>
      ParenHasTag(t, 6, name);
      assert Tag(p) == "@" + name;
    case InUnnest(name) =>
      var b := SkipSpaces(t, 2);
      assert MatchLen(t, p) == ParenEnd(t, b + 6, name);
      ParenHasTag(t, b + 6, name);
      assert Tag(p) == "@" + name;
  }

  lemma ParenHasTag(t: string, i: nat, name: string)
    requires i <= |t| && ParenEnd(t, i, name) != 0
    ensures exists d :: CiPrefixAt(t, d, "@" + name)
  {
    var c := SkipSpaces(t, i);
    var d := SkipSpaces(t, c + 1);
    assert CiPrefixAt(t, d, "@" + name);
  }

  /** No match starts at `k` when the pattern avoids `q` and every `@` of `s` begins `q`. */
  lemma NoMatchWhereAtsBegin(s: string, k: nat, p: Pattern, q: string)
    requires k < |s| && AtsBegin(s, q) && Avoids(p, q)
    ensures MatchLen(s[k..], p) == 0
  {
    if MatchLen(s[k..], p) > 0 {
      MatchHasTag(s[k..], p);
    }
  }

  /** A pattern that avoids `q` leaves alone a text whose every `@` begins `q`. */
  lemma AvoidedPatternIdle(s: string, p: Pattern, rep: string, q: string)
    requires AtsBegin(s, q) && Avoids(p, q)
    ensures Rewrite(s, p, rep) == s
  {
    forall k | 0 <= k < |s| ensures Matcher(p)(s[k..]) == 0 {
      NoMatchWhereAtsBegin(s, k, p, q);
    }
    RewriteWithoutMatch(s, Matcher(p), rep);
  }

  /** Steps that all avoid `q` leave alone a text whose every `@` begins `q`. */
  lemma {:induction false} ApplyAllIdle(s: string, subs: seq<Substitution>, q: string)
    requires AtsBegin(s, q)
    requires forall j :: 0 <= j < |subs| ==> Avoids(subs[j].pattern, q)
    ensures ApplyAll(s, subs) == s
    decreases |subs|
  {
    if subs != [] {
      if subs[0].active {
        AvoidedPatternIdle(s, subs[0].pattern, subs[0].rep, q);
      }
      assert forall j :: 0 <= j < |subs| - 1 ==> subs[1..][j] == subs[j + 1];
      ApplyAllIdle(s, subs[1..], q);
    }
  }

  /**
   * When every step but step `i` avoids `q`, and every `@` begins `q` both
   * before and after step `i`, only step `i` changes the text.
   */
  lemma {:induction false} ApplyAllOnly(s: string, subs: seq<Substitution>, i: nat, q: string)
    requires i < |subs|
    requires AtsBegin(s, q) && AtsBegin(ApplyOne(s, subs[i]), q)
    requires forall j :: 0 <= j < |subs| && j != i ==> Avoids(subs[j].pattern, q)
    ensures ApplyAll(s, subs) == ApplyOne(s, subs[i])
    decreases i
  {
    assert forall j :: 0 <= j < |subs| - 1 ==> subs[1..][j] == subs[j + 1];
    if i == 0 {
      ApplyAllIdle(ApplyOne(s, subs[0]), subs[1..], q);
    } else {
      if subs[0].active {
        AvoidedPatternIdle(s, subs[0].pattern, subs[0].rep, q);
      }
      ApplyAllOnly(s, subs[1..], i - 1, q);
    }
  }

  /** Text pieces that hold neither `@` nor a backtick. */
  predicate PlainParts(parts: seq<string>) {
    forall k :: 0 <= k < |parts| ==> '@' !in parts[k] && '`' !in parts[k]
  }

  /** In a join on the placeholder `q` of `@`-free pieces, every `@` begins `q`. */
  lemma {:induction false} JoinAtsBegin(parts: seq<string>, q: string)
    requires IsPlaceholderText(q)
    requires forall k :: 0 <= k < |parts| ==> '@' !in parts[k]
    ensures AtsBegin(Join(parts, q), q)
    decreases |parts|
  {
    if |parts| > 1 {
      var tail := Join(parts[1..], q);
      JoinAtsBegin(parts[1..], q);
      AtsBeginFrame(parts[0], q, tail, q);
    }
  }

  /** Every `@` of `pre + mid + post` begins `q` when `pre` and `post` hold none and every `@` of `mid` begins `q`. */
  lemma AtsBeginFrame(pre: string, mid: string, post: string, q: string)
    requires '@' !in pre && AtsBegin(mid, q) && AtsBegin(post, q)
    ensures AtsBegin(pre + mid + post, q)
  {
    var s := pre + mid + post;
    forall k | 0 <= k < |s| && s[k] == '@' ensures CiPrefixAt(s, k, q) {
      if k < |pre| + |mid| {
        var j := k - |pre|;
        assert s[k] == mid[j];
        forall m | 0 <= m < |q| ensures LowerChar(s[k + m]) == LowerChar(q[m]) {
          assert s[k + m] == mid[j + m];
        }
      } else {
        var j := k - |pre| - |mid|;
        assert s[k] == post[j];
        forall m | 0 <= m < |q| ensures LowerChar(s[k + m]) == LowerChar(q[m]) {
          assert s[k + m] == post[j + m];
        }
      }
    }
  }

  /** Every occurrence of `q` in a join on `q` of `@`-free pieces is a separator, so replacing `q` swaps the separator. */
  lemma {:induction false} ReplaceJoin(parts: seq<string>, q: string, rep: string)
    requires q != [] && q[0] == '@'
    requires forall k :: 0 <= k < |parts| ==> '@' !in parts[k]
    ensures Rewrite(Join(parts, q), Literal(q), rep) == Join(parts, rep)
    decreases |parts|
  {
    if |parts| == 1 {
      AtFreeIdle(parts[0], Literal(q), rep);
    } else if |parts| > 1 {
      var pre := parts[0];
      var post := Join(parts[1..], q);
      forall k | 0 <= k < |pre| ensures Matcher(Literal(q))((pre + q + post)[k..]) == 0 {
        assert (pre + q + post)[k..][0] == pre[k];
      }
      RewriteAtFirstMatch(pre, q, post, Matcher(Literal(q)), rep);
      ReplaceJoin(parts[1..], q, rep);
    }
  }

  /** No pattern whose tag starts with `@` matches in a text without `@`. */
  lemma AtFreeIdle(s: string, p: Pattern, rep: string)
    requires '@' !in s && Tag(p) != [] && Tag(p)[0] == '@'
    ensures Rewrite(s, p, rep) == s
  {
    forall k | 0 <= k < |s| ensures Matcher(p)(s[k..]) == 0 {
      if MatchLen(s[k..], p) > 0 {
        MatchHasTag(s[k..], p);
      }
    }
    RewriteWithoutMatch(s, Matcher(p), rep);
  }

  // ---------------------------------------------------------------------------
  // What the formatter does to each placeholder
  // ---------------------------------------------------------------------------

  /**
   * The placeholder of literal step `i`, written between pieces of text that
   * hold no `@` and no backtick: when the step is active every occurrence
   * becomes the step's text, and otherwise the placeholder stays, whatever
   * the other parameters are.
   */
  lemma FormattedFillsPlaceholder(parts: seq<string>, params: TipParams, i: nat)
    requires i < 8 && i != 2 && i != 7
    requires IsPlaceholderText(Placeholders[i]) && '`' !in Placeholders[i]
    requires PlainParts(parts)
    requires '@' !in Substitutions(params)[i].rep
    ensures FormattedSql(Join(parts, Placeholders[i]), params) ==
            Strip(Join(parts, if Substitutions(params)[i].active then Substitutions(params)[i].rep else Placeholders[i]))
  {
    var q := Placeholders[i];
    var subs := Substitutions(params);
    SubstitutionTags(params);
    PlaceholdersDiffer(i, if i == 0 then 1 else 0);
    var s0 := Join(parts, q);
    JoinKeepsCharOut(parts, q, '`');
    RemoveBackticksNoop(s0);
    JoinAtsBegin(parts, q);
    if subs[i].active {
      ReplaceJoin(parts, q, subs[i].rep);
      JoinKeepsCharOut(parts, subs[i].rep, '@');
    }
    OtherStepsAvoid(params, i);
    ApplyAllOnly(s0, subs, i, q);
  }

  /**
   * A list clause that the pattern of step `i` (`2` for the jurisdictions,
   * `7` for the competitors) matches whole, as the first match in the text,
   * between text without `@`: when the list is given the clause becomes the
   * quoted list, and otherwise it stays, whatever the other parameters are.
   */
  lemma FormattedRewritesClause(pre: string, clause: string, post: string, params: TipParams, i: nat)
    requires i == 2 || i == 7
    requires '@' !in pre && '@' !in post && '`' !in pre + clause + post
    requires AtsBegin(clause, Placeholders[i])
    requires clause != [] && MatchLen(clause + post, Substitutions(params)[i].pattern) == |clause|
    requires forall k :: 0 <= k < |pre| ==> MatchLen((pre + clause + post)[k..], Substitutions(params)[i].pattern) == 0
    requires '@' !in Substitutions(params)[i].rep
    ensures FormattedSql(pre + clause + post, params) ==
            Strip(pre + (if Substitutions(params)[i].active then Substitutions(params)[i].rep else clause) + post)
  {
    var q := Placeholders[i];
    var subs := Substitutions(params);
    var u := subs[i];
    SubstitutionTags(params);
    PlaceholdersDiffer(i, 0);
    var s0 := pre + clause + post;
    RemoveBackticksNoop(s0);
    AtsBeginFrame(pre, clause, post, q);
    if u.active {
      RewriteAtFirstMatch(pre, clause, post, Matcher(u.pattern), u.rep);
      AtFreeIdle(post, u.pattern, u.rep);
      assert '@' !in pre + u.rep + post;
    }
    OtherStepsAvoid(params, i);
    ApplyAllOnly(s0, subs, i, q);
  }

  /** Every `@year_start` becomes `str(year_start)` when it is given, and stays otherwise. */
  lemma FormattedYearStart(parts: seq<string>, params: TipParams)
    requires PlainParts(parts)
    ensures FormattedSql(Join(parts, "@year_start"), params) ==
            Strip(Join(parts, if params.yearStart.Some? then IntToString(params.yearStart.value) else "@year_start"))
  {
    PlaceholderLiterals();
    if params.yearStart.Some? {
      IntTextSafe(params.yearStart.value);
    }
    FormattedFillsPlaceholder(parts, params, 0);
  }

  /** Every `@year_end` becomes `str(year_end)` when it is given, and stays otherwise. */
  lemma FormattedYearEnd(parts: seq<string>, params: TipParams)
    requires PlainParts(parts)
    ensures FormattedSql(Join(parts, "@year_end"), params) ==
            Strip(Join(parts, if params.yearEnd.Some? then IntToString(params.yearEnd.value) else "@year_end"))
  {
    PlaceholderLiterals();
    if params.yearEnd.Some? {
      IntTextSafe(params.yearEnd.value);
    }
    FormattedFillsPlaceholder(parts, params, 1);
  }

  /** Every `@tech_field` becomes `str(tech_field)` when it is given, and stays otherwise. */
  lemma FormattedTechField(parts: seq<string>, params: TipParams)
    requires PlainParts(parts)
    ensures FormattedSql(Join(parts, "@tech_field"), params) ==
            Strip(Join(parts, if params.techField.Some? then IntToString(params.techField.value) else "@tech_field"))
  {
    PlaceholderLiterals();
    if params.techField.Some? {
      IntTextSafe(params.techField.value);
    }
    FormattedFillsPlaceholder(parts, params, 3);
  }

  /** Every `@tech_sector` becomes the quoted sector when it is given, and stays otherwise. */
  lemma FormattedTechSector(parts: seq<string>, params: TipParams)
    requires PlainParts(parts)
    requires params.techSector.Some? ==> '@' !in params.techSector.value
    ensures FormattedSql(Join(parts, "@tech_sector"), params) ==
            Strip(Join(parts, if params.techSector.Some? then Quote(params.techSector.value) else "@tech_sector"))
  {
    PlaceholderLiterals();
    FormattedFillsPlaceholder(parts, params, 4);
  }

  /**
   * Every `@applicant_name` becomes the name with each quote doubled, in
   * quotes, when it is given, and stays otherwise.
   */
  lemma FormattedApplicantName(parts: seq<string>, params: TipParams)
    requires PlainParts(parts)
    requires params.applicantName.Some? ==> '@' !in params.applicantName.value
    ensures FormattedSql(Join(parts, "@applicant_name"), params) ==
            Strip(Join(parts, if params.applicantName.Some? then Quote(EscapeQuotes(params.applicantName.value))
                              else "@applicant_name"))
  {
    PlaceholderLiterals();
    if params.applicantName.Some? {
      RewriteKeepsCharOut(params.applicantName.value, Matcher(Literal("'")), "''", '@');
    }
    FormattedFillsPlaceholder(parts, params, 5);
  }

  /** Every `@ipc_class` becomes the quoted class when it is given, and stays otherwise. */
  lemma FormattedIpcClass(parts: seq<string>, params: TipParams)
    requires PlainParts(parts)
    requires params.ipcClass.Some? ==> '@' !in params.ipcClass.value
    ensures FormattedSql(Join(parts, "@ipc_class"), params) ==
            Strip(Join(parts, if params.ipcClass.Some? then Quote(params.ipcClass.value) else "@ipc_class"))
  {
    PlaceholderLiterals();
    FormattedFillsPlaceholder(parts, params, 6);
  }

  /**
   * An `IN UNNEST(@jurisdictions)` clause, in any spelling the pattern
   * accepts, that is the pattern's first match and stands between text
   * without `@`: a non-empty list turns it into `IN ('EP', 'US', …)`, and an
   * empty one leaves it as written.
   */
  lemma FormattedJurisdictions(pre: string, clause: string, post: string, params: TipParams)
    requires '@' !in pre && '@' !in post && '`' !in pre + clause + post
    requires AtsBegin(clause, "@jurisdictions")
    requires clause != [] && MatchLen(clause + post, InUnnest("jurisdictions")) == |clause|
    requires forall k :: 0 <= k < |pre| ==> MatchLen((pre + clause + post)[k..], InUnnest("jurisdictions")) == 0
    requires forall k :: 0 <= k < |params.jurisdictions| ==> '@' !in params.jurisdictions[k]
    ensures FormattedSql(pre + clause + post, params) ==
            Strip(pre + (if params.jurisdictions != [] then "IN (" + QuotedList(params.jurisdictions) + ")" else clause) + post)
  {
    assert Placeholders[2] == "@jurisdictions";
    QuotedListSafe(params.jurisdictions);
    FormattedRewritesClause(pre, clause, post, params, 2);
  }

  /**
   * An `UNNEST(@competitors)` clause, in any spelling the pattern accepts,
   * that is the pattern's first match and stands between text without `@`:
   * a non-empty list turns it into `('A', 'B', …)`, and an empty one leaves
   * it as written.
   */
  lemma FormattedCompetitors(pre: string, clause: string, post: string, params: TipParams)
    requires '@' !in pre && '@' !in post && '`' !in pre + clause + post
    requires AtsBegin(clause, "@competitors")
    requires clause != [] && MatchLen(clause + post, Unnest("competitors")) == |clause|
    requires forall k :: 0 <= k < |pre| ==> MatchLen((pre + clause + post)[k..], Unnest("competitors")) == 0
    requires forall k :: 0 <= k < |params.competitors| ==> '@' !in params.competitors[k]
    ensures FormattedSql(pre + clause + post, params) ==
            Strip(pre + (if params.competitors != [] then "(" + QuotedList(params.competitors) + ")" else clause) + post)
  {
    assert Placeholders[7] == "@competitors";
    QuotedListSafe(params.competitors);
    FormattedRewritesClause(pre, clause, post, params, 7);
  }

  /** One `formatted.replace(q, rep)` step, and what it does to the placeholders already substituted. */
  method ReplaceStep(text: string, q: string, rep: string, ghost done: seq<string>, ghost safe: bool)
    returns (r: string)
    requires IsPlaceholderText(q)
    requires safe ==> SafeReplacement(rep) && Resolved(text, done)
    ensures r == Rewrite(text, Literal(q), rep)
    ensures safe ==> Resolved(r, [q] + done)
  {
    if safe {
      ReplaceResolves(text, q, rep, done);
    }
    r := Rewrite(text, Literal(q), rep);
  }

  /** One list substitution (`re.sub` with an `UNNEST` pattern), which keeps the substituted placeholders gone. */
  method ListStep(text: string, p: Pattern, rep: string, ghost done: seq<string>, ghost safe: bool)
    returns (r: string)
    requires safe ==> SafeReplacement(rep) && Resolved(text, done)
    ensures r == Rewrite(text, p, rep)
    ensures safe ==> Resolved(r, done)
  {
    if safe {
      RewriteKeepsResolved(text, p, rep, done);
    }
    r := Rewrite(text, p, rep);
  }

  /** Trimming cannot create an occurrence. */
  lemma StripKeepsResolved(s: string, done: seq<string>)
    requires Resolved(s, done)
    ensures Resolved(Strip(s), done)
  {
    ResolvedIff(s, done);
    ResolvedIff(Strip(s), done);
    forall k | 0 <= k < |done| ensures !Occurs(Strip(s), done[k]) {
      StripKeepsAbsence(s, done[k]);
    }
  }

  /** The year, jurisdiction and technology-field substitutions, in the source's order. */
  method SubstituteYearsAndField(text: string, params: TipParams, ghost safe: bool)
    returns (formatted: string, ghost done: seq<string>)
    requires safe ==> AtFree(params)
    ensures formatted == ApplyAll(text, YearsAndFieldSubstitutions(params))
    ensures params == NoParams ==> formatted == text
    ensures done == Prepend(params.techField.Some?, "@tech_field",
                    Prepend(params.yearEnd.Some?, "@year_end",
                    Prepend(params.yearStart.Some?, "@year_start", [])))
    ensures safe ==> Resolved(formatted, done)
  {
    done := [];
    PlaceholderLiterals();
    formatted := text;
    if params.yearStart.Some? {
      IntTextSafe(params.yearStart.value);
      formatted := ReplaceStep(formatted, "@year_start", IntToString(params.yearStart.value), done, safe);
    }
    done := Prepend(params.yearStart.Some?, "@year_start", done);
    if params.yearEnd.Some? {
      IntTextSafe(params.yearEnd.value);
      formatted := ReplaceStep(formatted, "@year_end", IntToString(params.yearEnd.value), done, safe);
    }
    done := Prepend(params.yearEnd.Some?, "@year_end", done);
    if params.jurisdictions != [] {
      if safe {
        QuotedListSafe(params.jurisdictions);
      }
      formatted := ListStep(formatted, InUnnest("jurisdictions"), "IN (" + QuotedList(params.jurisdictions) + ")", done, safe);
    }
    if params.techField.Some? {
      IntTextSafe(params.techField.value);
      formatted := ReplaceStep(formatted, "@tech_field", IntToString(params.techField.value), done, safe);
    }
    done := Prepend(params.techField.Some?, "@tech_field", done);
    ApplyFour(text, YearsAndFieldSubstitutions(params));
  }

  /** The sector, applicant, IPC and competitor substitutions, in the source's order. */
  method SubstituteNames(text: string, params: TipParams, ghost safe: bool, ghost done0: seq<string>)
    returns (formatted: string, ghost done: seq<string>)
    requires safe ==> AtFree(params) && Resolved(text, done0)
    ensures formatted == ApplyAll(text, NameSubstitutions(params))
    ensures params == NoParams ==> formatted == text
    ensures done == Prepend(params.ipcClass.Some?, "@ipc_class",
                    Prepend(params.applicantName.Some?, "@applicant_name",
                    Prepend(params.techSector.Some?, "@tech_sector", done0)))
    ensures safe ==> Resolved(formatted, done)
  {
    done := done0;
    PlaceholderLiterals();
    formatted := text;
    if params.techSector.Some? {
      formatted := ReplaceStep(formatted, "@tech_sector", Quote(params.techSector.value), done, safe);
    }
    done := Prepend(params.techSector.Some?, "@tech_sector", done);
    if params.applicantName.Some? {
      var safeName := EscapeQuotes(params.applicantName.value);
      if safe {
        RewriteKeepsCharOut(params.applicantName.value, Matcher(Literal("'")), "''", '@');
      }
      formatted := ReplaceStep(formatted, "@applicant_name", Quote(safeName), done, safe);
    }
    done := Prepend(params.applicantName.Some?, "@applicant_name", done);
    if params.ipcClass.Some? {
      formatted := ReplaceStep(formatted, "@ipc_class", Quote(params.ipcClass.value), done, safe);
    }
    done := Prepend(params.ipcClass.Some?, "@ipc_class", done);
    if params.competitors != [] {
      if safe {
        QuotedListSafe(params.competitors);
      }
      formatted := ListStep(formatted, Unnest("competitors"), "(" + QuotedList(params.competitors) + ")", done, safe);
    }
    ApplyFour(text, NameSubstitutions(params));
  }

  /**
   * `format_sql_for_tip(sql, params)`: strip backticks, substitute each supplied
   * parameter, and trim the result.
   */
  method FormatSqlForTip(sql: string, params: TipParams) returns (formatted: string)
    requires ListsLiteral(params)
    ensures formatted == FormattedSql(sql, params)
    ensures params == NoParams ==> formatted == Strip(RemoveBackticks(sql))
    ensures Trimmed(formatted)
    ensures AtFree(params) ==> Resolved(formatted, Supplied(params))
  {
    ghost var safe := AtFree(params);
    formatted := RemoveBackticks(sql);
    ghost var done;
    formatted, done := SubstituteYearsAndField(formatted, params, safe);
    formatted, done := SubstituteNames(formatted, params, safe, done);
    if safe {
      StripKeepsResolved(formatted, done);
    }
    ApplyAllAppend(RemoveBackticks(sql), YearsAndFieldSubstitutions(params), NameSubstitutions(params));
    formatted := Strip(formatted);
  }
}
