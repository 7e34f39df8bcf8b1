/**
 * Building the CPC classification table: normalising PATSTAT symbols,
 * deriving kind codes, cleaning title lines, and deriving one row per input
 * symbol, with its parent, in batches of 10000.
 */
module CpcBuild {
  import opened Base
  import opened Text

  // ---------------------------------------------------------------------
  // Symbol forms
  // ---------------------------------------------------------------------

  /** `symbol.replace(" ", "")` */
  function SymbolToShort(symbol: string): string
    decreases |symbol|
  {
    if symbol == [] then []
    else (if symbol[0] == ' ' then [] else [symbol[0]]) + SymbolToShort(symbol[1..])
  }

  /** The short form holds no space, is no longer than the symbol, and keeps every other character. */
  lemma {:induction false} ShortForm(symbol: string)
    ensures ' ' !in SymbolToShort(symbol)
    ensures |SymbolToShort(symbol)| <= |symbol|
    ensures forall c :: c != ' ' ==> (c in SymbolToShort(symbol) <==> c in symbol)
    decreases |symbol|
  {
    if symbol != [] {
      ShortForm(symbol[1..]);
      assert forall c :: c in symbol <==> c == symbol[0] || c in symbol[1..];
    }
  }

  /** A symbol without spaces is already short. */
  lemma {:induction false} ShortKeepsShort(symbol: string)
    requires ' ' !in symbol
    ensures SymbolToShort(symbol) == symbol
    decreases |symbol|
  {
    if symbol != [] {
      assert symbol[0] in symbol;
      ShortKeepsShort(symbol[1..]);
      assert symbol == [symbol[0]] + symbol[1..];
    }
  }

  /** Shortening twice is shortening once. */
  lemma ShortIdempotent(symbol: string)
    ensures SymbolToShort(SymbolToShort(symbol)) == SymbolToShort(symbol)
  {
    ShortForm(symbol);
    ShortKeepsShort(SymbolToShort(symbol));
  }

  /**
   * `symbol_to_zeropad`: without a `/` the short form; otherwise the first
   * four characters, the group left-padded with `0` to 4 and the subgroup
   * right-padded with `0` to 6.
   */
  function SymbolToZeropad(symbol: string): string {
    PadShort(SymbolToShort(symbol))
  }

  /** A short form without a slash is its own zero-padded form. */
  lemma ZeropadWithoutSlash(symbol: string)
    requires '/' !in SymbolToShort(symbol)
    ensures SymbolToZeropad(symbol) == SymbolToShort(symbol)
  {
    assert IndexOf(SymbolToShort(symbol), '/') == |SymbolToShort(symbol)|;
  }

  /** The zero-padding of `symbol_to_zeropad`, applied to an already shortened symbol. */
  function PadShort(short: string): string {
    var slash := IndexOf(short, '/');
    if slash == |short| then short else PadAround(short, slash)
  }

  /** Subclass, group left-padded to 4 and subgroup right-padded to 6, around the slash at `slash`. */
  function PadAround(short: string, slash: nat): string
    requires slash < |short|
  {
    PrefixTo(short, 4) + ZFill(Slice(short, 4, slash), 4) + LJust(short[slash + 1..], 6, '0')
  }

  /**
   * For a short form made of a four-character subclass, a numeric group of
   * at most four digits, a slash and a subgroup of at most six characters,
   * the zero-padded form is 14 characters: subclass, padded group, padded
   * subgroup.
   */
  lemma ZeropadLayout(symbol: string, subclass: string, group: string, subgroup: string)
    requires SymbolToShort(symbol) == subclass + group + "/" + subgroup
    requires |subclass| == 4 && '/' !in subclass
    requires 1 <= |group| <= 4 && forall k :: 0 <= k < |group| ==> IsDigit(group[k])
    requires |subgroup| <= 6
    ensures SymbolToZeropad(symbol)
            == subclass + Repeat('0', 4 - |group|) + group + subgroup + Repeat('0', 6 - |subgroup|)
    ensures |SymbolToZeropad(symbol)| == 14
  {
    PadLayout(subclass, group, subgroup);
  }

  lemma PadLayout(subclass: string, group: string, subgroup: string)
    requires |subclass| == 4 && '/' !in subclass
    requires 1 <= |group| <= 4 && forall k :: 0 <= k < |group| ==> IsDigit(group[k])
    requires |subgroup| <= 6
    ensures PadShort(subclass + group + "/" + subgroup)
            == subclass + Repeat('0', 4 - |group|) + group + subgroup + Repeat('0', 6 - |subgroup|)
  {
    var short := subclass + group + "/" + subgroup;
    var slash := |subclass| + |group|;
    ShortPieces(subclass, group, subgroup);
    PadPieces(short, slash, subclass, group, subgroup);
  }

  /** Where the pieces of a well-formed short symbol sit. */
  lemma ShortPieces(subclass: string, group: string, subgroup: string)
    requires |subclass| == 4 && '/' !in subclass
    requires forall k :: 0 <= k < |group| ==> IsDigit(group[k])
    ensures var short := subclass + group + "/" + subgroup;
            var slash := |subclass| + |group|;
            slash < |short| && IndexOf(short, '/') == slash &&
            PrefixTo(short, 4) == subclass && Slice(short, 4, slash) == group && short[slash + 1..] == subgroup
  {
    var head := subclass + group;
    var short := head + ['/'] + subgroup;
    assert subclass + group + "/" + subgroup == short;
    assert '/' !in head by {
      forall k | 0 <= k < |head| ensures head[k] != '/' {
        if k < 4 { assert head[k] == subclass[k]; } else { assert head[k] == group[k - 4]; }
      }
    }
    FirstSlash(head, subgroup);
    assert short[..4] == subclass;
    assert short[4..|head|] == group;
    assert short[|head| + 1..] == subgroup;
  }

  /** Padding the pieces: the group is all digits and the subgroup at most six characters. */
  lemma PadPieces(short: string, slash: nat, subclass: string, group: string, subgroup: string)
    requires slash < |short|
    requires PrefixTo(short, 4) == subclass && Slice(short, 4, slash) == group && short[slash + 1..] == subgroup
    requires 1 <= |group| <= 4 && IsDigit(group[0])
    requires |subgroup| <= 6
    requires IndexOf(short, '/') == slash
    ensures PadShort(short) == subclass + Repeat('0', 4 - |group|) + group + subgroup + Repeat('0', 6 - |subgroup|)
  {
    PadAroundPieces(short, slash);
    ZFillDigits(group, 4);
    LJustShort(subgroup, 6, '0');
    Regroup(subclass, Repeat('0', 4 - |group|), group, subgroup, Repeat('0', 6 - |subgroup|));
  }

  /** With its first `/` at `slash`, the padded form pads the pieces around it. */
  lemma PadAroundPieces(short: string, slash: nat)
    requires slash < |short| && IndexOf(short, '/') == slash
    ensures PadShort(short) == PrefixTo(short, 4) + ZFill(Slice(short, 4, slash), 4) + LJust(short[slash + 1..], 6, '0')
  {
    assert PadShort(short) == PadAround(short, slash);
  }

  /** `ljust` of a shorter text appends the fill. */
  lemma LJustShort(s: string, width: nat, fill: char)
    requires |s| <= width
    ensures LJust(s, width, fill) == s + Repeat(fill, width - |s|)
  {
  }

  lemma Regroup(a: string, b: string, c: string, d: string, e: string)
    ensures a + (b + c) + (d + e) == a + b + c + d + e
  {
  }

  /** The first `/` of `head + "/" + tail` is right after `head` when `head` has none. */
  lemma FirstSlash(head: string, tail: string)
    requires '/' !in head
    ensures IndexOf(head + ['/'] + tail, '/') == |head|
  {
    var s := head + ['/'] + tail;
    assert s[|head|] == '/';
    assert s[..|head|] == head;
  }

  /** `zfill` on digits only pads with zeros in front. */
  lemma ZFillDigits(digits: string, width: nat)
    requires 1 <= |digits| <= width && IsDigit(digits[0])
    ensures ZFill(digits, width) == Repeat('0', width - |digits|) + digits
  {
  }

  /** `determine_kind`: levels 2, 4, 5 and 7 have letters; others `str(min(level - 7, 9))`. */
  function DetermineKind(level: int): (kind: string)
    ensures level == 2 ==> kind == "s"
    ensures level == 4 ==> kind == "c"
    ensures level == 5 ==> kind == "u"
    ensures level == 7 ==> kind == "m"
    ensures level > 7 ==> kind == [DigitChar(if level - 7 < 9 then level - 7 else 9)]
    ensures level < 7 && level != 2 && level != 4 && level != 5 ==> kind == "-" + NatToString(7 - level)
  {
    if level == 2 then "s"
    else if level == 4 then "c"
    else if level == 5 then "u"
    else if level == 7 then "m"
    else
      var depth := level - 7;
      IntToString(if depth < 9 then depth else 9)
  }

  /** Reading a kind code back as the level it stands for; 0 for a text no level produces. */
  function KindLevel(kind: string): int {
    if kind == "s" then 2
    else if kind == "c" then 4
    else if kind == "u" then 5
    else if kind == "m" then 7
    else if |kind| == 1 && IsDigit(kind[0]) then 7 + (kind[0] as int - '0' as int)
    else if |kind| >= 2 && kind[0] == '-' && forall k :: 1 <= k < |kind| ==> IsDigit(kind[k]) then
      7 - ParseNat(kind[1..])
    else 0
  }

  /**
   * Up to level 16 the kind code determines the level; deeper levels all
   * share the code `9`.
   */
  lemma KindRoundTrip(level: int)
    ensures level <= 16 ==> KindLevel(DetermineKind(level)) == level
    ensures level >= 16 ==> DetermineKind(level) == "9"
  {
    if level < 7 && level != 2 && level != 4 && level != 5 {
      ShallowKindRoundTrip(level);
    } else if 7 < level <= 16 {
      DeepKindRoundTrip(level);
    }
  }

  lemma DeepKindRoundTrip(level: int)
    requires 7 < level <= 16
    ensures KindLevel(DetermineKind(level)) == level
  {
    var kind := DetermineKind(level);
    assert kind == [DigitChar(level - 7)];
    assert kind != "s" && kind != "c" && kind != "u" && kind != "m";
  }

  lemma ShallowKindRoundTrip(level: int)
    requires level < 7 && level != 2 && level != 4 && level != 5
    ensures KindLevel(DetermineKind(level)) == level
  {
    var digits := NatToString(7 - level);
    var kind := "-" + digits;
    assert DetermineKind(level) == kind;
    assert kind[1..] == digits;
    ParseNatToString(7 - level);
    assert |kind| >= 2 && kind[0] == '-';
  }

  /** Two levels up to 16 never share a kind code. */
  lemma KindDistinguishesLevels(a: int, b: int)
    requires a <= 16 && b <= 16
    requires DetermineKind(a) == DetermineKind(b)
    ensures a == b
  {
    KindRoundTrip(a);
    KindRoundTrip(b);
  }

  // ---------------------------------------------------------------------
  // Title lines
  // ---------------------------------------------------------------------

  /** `line.rstrip("\n\r")` */
  function RStripNewlines(line: string): (r: string)
    ensures r <= line
    ensures r == [] || (r[|r| - 1] != '\n' && r[|r| - 1] != '\r')
    ensures forall k :: |r| <= k < |line| ==> line[k] == '\n' || line[k] == '\r'
    decreases |line|
  {
    if line == [] || (line[|line| - 1] != '\n' && line[|line| - 1] != '\r') then line
    else RStripNewlines(line[..|line| - 1])
  }

  /** No `{` is followed, anywhere later, by a `}`. */
  predicate NoBracedSegment(s: string) {
    forall i, j :: 0 <= i < j < |s| && s[i] == '{' ==> s[j] != '}'
  }

  /**
   * `re.sub(r"\{[^}]*\}", "", s)`: scanning left to right, a `{` with a `}`
   * somewhere after it is removed together with everything up to the first
   * such `}`.
   */
  function RemoveBraced(s: string): (r: string)
    ensures |r| <= |s|
    ensures NoBracedSegment(r)
    ensures '{' !in s ==> r == s
    decreases |s|
  {
    if s == [] then []
    else if s[0] == '{' then
      var close := IndexOf(s[1..], '}');
      if close < |s| - 1 then RemoveBraced(s[close + 2..])
      else
        // No `}` follows, so no later `{` can match either.
        assert forall j :: 1 <= j < |s| ==> s[j] == s[1..][j - 1];
        s
    else
      var rest := RemoveBraced(s[1..]);
      assert s[0] in s;
      assert forall c :: c in s[1..] ==> c in s;
      [s[0]] + rest
  }

  /** `re.sub(r"\s+", " ", s)`: every maximal run of whitespace becomes one space. */
  function CollapseSpaces(s: string): (r: string)
    ensures forall k :: 0 <= k < |r| && IsSpace(r[k]) ==> r[k] == ' '
    ensures forall k :: 0 <= k < |r| - 1 ==> !(r[k] == ' ' && r[k + 1] == ' ')
    ensures r != [] && r[0] == ' ' ==> s != [] && IsSpace(s[0])
    ensures (forall k :: 0 <= k < |s| ==> !IsSpace(s[k])) ==> r == s
    decreases |s|
  {
    if s == [] then []
    else if IsSpace(s[0]) then
      var n := LeadingSpaces(s);
      " " + CollapseSpaces(s[n..])
    else
      [s[0]] + CollapseSpaces(s[1..])
  }

  /** A single-spaced text: whitespace only as lone `' '` characters. */
  predicate SingleSpaced(s: string) {
    (forall k :: 0 <= k < |s| && IsSpace(s[k]) ==> s[k] == ' ')
    && (forall k :: 0 <= k < |s| - 1 ==> !(s[k] == ' ' && s[k + 1] == ' '))
  }

  /** Cutting off both ends of a single-spaced text leaves it single-spaced. */
  lemma StripKeepsSingleSpaced(s: string)
    requires SingleSpaced(s)
    ensures SingleSpaced(Strip(s))
  {
    StripIsInfix(s);
    var a, b :| 0 <= a <= b <= |s| && Strip(s) == s[a..b] && AllSpace(s[..a]) && AllSpace(s[b..]);
    InfixKeepsSingleSpaced(s, a, b);
  }

  /** Every infix of a single-spaced text is single-spaced. */
  lemma InfixKeepsSingleSpaced(s: string, a: nat, b: nat)
    requires SingleSpaced(s) && a <= b <= |s|
    ensures SingleSpaced(s[a..b])
  {
    var r := s[a..b];
    assert forall k :: 0 <= k < |r| ==> r[k] == s[a + k];
  }

  /** The title cleaning of `extract_titles`: trim, drop `{…}` notes, trim, collapse whitespace, trim. */
  function CleanTitle(raw: string): (title: string)
    ensures Trimmed(title)
    ensures SingleSpaced(title)
  {
    var collapsed := CollapseSpaces(Strip(RemoveBraced(Strip(raw))));
    StripKeepsSingleSpaced(collapsed);
    Strip(collapsed)
  }

  /** A text splits into two or more pieces exactly when it holds the separator. */
  lemma SplitCount(s: string, sep: char)
    ensures |Split(s, sep)| >= 2 <==> sep in s
  {
    if sep !in s {
      SplitWithoutSep(s, sep);
    } else if |Split(s, sep)| == 1 {
      JoinSplit(s, sep);
    }
  }

  /**
   * One title line: lines without a tab are skipped; otherwise the trimmed
   * first field is the symbol and the cleaned last field the title.
   */
  function ParseTitleLine(line: string): (r: Option<(string, string)>)
    ensures r.Some? <==> '\t' in line
    ensures r.Some? ==> Trimmed(r.value.0) && Trimmed(r.value.1) && SingleSpaced(r.value.1)
  {
    var stripped := RStripNewlines(line);
    assert '\t' in line <==> '\t' in stripped by {
      assert forall k :: 0 <= k < |stripped| ==> stripped[k] == line[k];
    }
    FieldsOfLine(stripped)
  }

  /** The symbol and title of a line whose line ending is already cut off. */
  function FieldsOfLine(stripped: string): (r: Option<(string, string)>)
    ensures r.Some? <==> '\t' in stripped
    ensures r.Some? ==> Trimmed(r.value.0) && Trimmed(r.value.1) && SingleSpaced(r.value.1)
  {
    SplitCount(stripped, '\t');
    if stripped == [] then None else TitleOfFields(Split(stripped, '\t'))
  }

  /** The stripped first field and the cleaned last field, when there are at least two fields. */
  function TitleOfFields(parts: seq<string>): (r: Option<(string, string)>)
    ensures r.Some? <==> |parts| >= 2
    ensures r.Some? ==> Trimmed(r.value.0) && Trimmed(r.value.1) && SingleSpaced(r.value.1)
  {
    if |parts| >= 2 then Some((Strip(parts[0]), CleanTitle(parts[|parts| - 1]))) else None
  }

  // ---------------------------------------------------------------------
  // What title cleaning keeps
  // ---------------------------------------------------------------------

  /** Text in front of any `{` passes through note removal unchanged. */
  lemma {:induction false} RemoveBracedKeepsPlain(a: string, s: string)
    requires '{' !in a
    ensures RemoveBraced(a + s) == a + RemoveBraced(s)
    decreases |a|
  {
    if a == [] {
      assert a + s == s;
    } else {
      assert a[0] in a;
      assert forall c :: c in a[1..] ==> c in a;
      RemoveBracedKeepsPlain(a[1..], s);
      RemoveBracedCons(a[0], a[1..] + s);
      ConsAppend(a, s);
      ConsAppend(a, RemoveBraced(s));
    }
  }

  /** A character other than `{` is copied. */
  lemma RemoveBracedCons(c: char, t: string)
    requires c != '{'
    ensures RemoveBraced([c] + t) == [c] + RemoveBraced(t)
  {
    assert ([c] + t)[0] == c && ([c] + t)[1..] == t;
  }

  /** A `{…}` note with no `}` inside is dropped whole, and the scan goes on after it. */
  lemma RemoveBracedDropsNote(note: string, rest: string)
    requires '}' !in note
    ensures RemoveBraced("{" + note + "}" + rest) == RemoveBraced(rest)
  {
    var s := "{" + note + "}" + rest;
    var t := s[1..];
    assert t == note + "}" + rest;
    assert t[|note|] == '}';
    assert t[..|note|] == note;
    assert IndexOf(t, '}') == |note|;
    assert s[|note| + 2..] == rest;
  }

  /** A `{` with no `}` after it is kept, with everything after it. */
  lemma RemoveBracedKeepsUnclosed(tail: string)
    requires '}' !in tail
    ensures RemoveBraced("{" + tail) == "{" + tail
  {
    var s := "{" + tail;
    assert s[1..] == tail;
  }

  /** The characters of `s` that are not whitespace, in order. */
  function NonSpace(s: string): string
    decreases |s|
  {
    if s == [] then [] else (if IsSpace(s[0]) then [] else [s[0]]) + NonSpace(s[1..])
  }

  lemma {:induction false} NonSpaceAppend(a: string, b: string)
    ensures NonSpace(a + b) == NonSpace(a) + NonSpace(b)
    decreases |a|
  {
    if a == [] {
      assert a + b == b;
    } else {
      assert (a + b)[0] == a[0] && (a + b)[1..] == a[1..] + b;
      NonSpaceAppend(a[1..], b);
    }
  }

  lemma {:induction false} NonSpaceOfSpaces(w: string)
    requires AllSpace(w)
    ensures NonSpace(w) == []
    decreases |w|
  {
    if w != [] {
      NonSpaceOfSpaces(w[1..]);
    }
  }

  /** `strip()` removes whitespace only. */
  lemma StripKeepsText(s: string)
    ensures NonSpace(Strip(s)) == NonSpace(s)
  {
    StripIsInfix(s);
    var a, b :| 0 <= a <= b <= |s| && Strip(s) == s[a..b] && AllSpace(s[..a]) && AllSpace(s[b..]);
    assert s == s[..a] + s[a..b] + s[b..];
    NonSpaceBetweenSpaces(s[..a], s[a..b], s[b..]);
  }

  lemma NonSpaceBetweenSpaces(x: string, y: string, z: string)
    requires AllSpace(x) && AllSpace(z)
    ensures NonSpace(x + y + z) == NonSpace(y)
  {
    NonSpaceAppend(x + y, z);
    NonSpaceAppend(x, y);
    NonSpaceOfSpaces(x);
    NonSpaceOfSpaces(z);
  }

  /** A whitespace run, up to the next character that is not whitespace, becomes one space. */
  lemma CollapseSpacesRun(w: string, s: string)
    requires w != [] && AllSpace(w)
    requires s == [] || !IsSpace(s[0])
    ensures CollapseSpaces(w + s) == " " + CollapseSpaces(s)
  {
    var t := w + s;
    var n := LeadingSpaces(t);
    assert forall k :: 0 <= k < |w| ==> t[k] == w[k];
    assert s != [] ==> t[|w|] == s[0];
    assert forall k :: 0 <= k < n ==> t[..n][k] == t[k];
    assert n == |w|;
    assert t[|w|..] == s;
  }

  /** Text without whitespace passes through unchanged. */
  lemma {:induction false} CollapseSpacesKeepsWord(a: string, s: string)
    requires forall k :: 0 <= k < |a| ==> !IsSpace(a[k])
    ensures CollapseSpaces(a + s) == a + CollapseSpaces(s)
    decreases |a|
  {
    if a == [] {
      assert a + s == s;
    } else {
      CollapseSpacesKeepsWord(a[1..], s);
      CollapseSpacesCons(a[0], a[1..] + s);
      ConsAppend(a, s);
      ConsAppend(a, CollapseSpaces(s));
    }
  }

  /** A character that is not whitespace is copied. */
  lemma CollapseSpacesCons(c: char, t: string)
    requires !IsSpace(c)
    ensures CollapseSpaces([c] + t) == [c] + CollapseSpaces(t)
  {
    assert ([c] + t)[0] == c && ([c] + t)[1..] == t;
  }

  /** Collapsing changes whitespace only: the other characters stay, in order. */
  lemma {:induction false} CollapseSpacesKeepsText(s: string)
    ensures NonSpace(CollapseSpaces(s)) == NonSpace(s)
    decreases |s|
  {
    if s != [] {
      if IsSpace(s[0]) {
        var n := LeadingSpaces(s);
        CollapseSpacesKeepsText(s[n..]);
        assert s == s[..n] + s[n..];
        NonSpaceAppend(s[..n], s[n..]);
        NonSpaceOfSpaces(s[..n]);
        NonSpaceAppend(" ", CollapseSpaces(s[n..]));
      } else {
        CollapseSpacesKeepsText(s[1..]);
        NonSpaceAppend([s[0]], CollapseSpaces(s[1..]));
      }
    }
  }

  /** A single-spaced text is its own collapse. */
  lemma {:induction false} CollapseSingleSpaced(s: string)
    requires SingleSpaced(s)
    ensures CollapseSpaces(s) == s
    decreases |s|
  {
    if s != [] {
      InfixKeepsSingleSpaced(s, 1, |s|);
      CollapseSingleSpaced(s[1..]);
      if IsSpace(s[0]) {
        CollapseSpacesRun([s[0]], s[1..]);
        assert [s[0]] + s[1..] == s;
      } else {
        CollapseSpacesKeepsWord([s[0]], s[1..]);
        assert [s[0]] + s[1..] == s;
      }
    }
  }

  /** Cleaning keeps every character of the stripped line, notes aside, that is not whitespace, in order. */
  lemma CleanTitleKeepsText(raw: string)
    ensures NonSpace(CleanTitle(raw)) == NonSpace(RemoveBraced(Strip(raw)))
  {
    var removed := RemoveBraced(Strip(raw));
    var collapsed := CollapseSpaces(Strip(removed));
    StripKeepsText(collapsed);
    CollapseSpacesKeepsText(Strip(removed));
    StripKeepsText(removed);
  }

  /** A title that is already clean (trimmed, single-spaced, without notes) is left as it is. */
  lemma CleanTitleFixesClean(title: string)
    requires '{' !in title && Trimmed(title) && SingleSpaced(title)
    ensures CleanTitle(title) == title
  {
    StripKeepsTrimmed(title);
    CollapseSingleSpaced(title);
  }

  /** Newline characters at the end are cut off, and nothing before them. */
  lemma {:induction false} RStripNewlinesOver(body: string, ending: string)
    requires body != [] && body[|body| - 1] != '\n' && body[|body| - 1] != '\r'
    requires forall k :: 0 <= k < |ending| ==> ending[k] == '\n' || ending[k] == '\r'
    ensures RStripNewlines(body + ending) == body
    decreases |ending|
  {
    if ending == [] {
      assert body + ending == body;
    } else {
      var line := body + ending;
      assert line[..|line| - 1] == body + ending[..|ending| - 1];
      RStripNewlinesOver(body, ending[..|ending| - 1]);
    }
  }

  /**
   * A title line read back from its tab-separated fields and its line
   * ending: the symbol is the stripped first field and the title the
   * cleaned last field, whatever stands between them.
   */
  lemma ParseTitleFields(fields: seq<string>, ending: string)
    requires |fields| >= 2
    requires forall k :: 0 <= k < |fields| ==> '\t' !in fields[k] && '\n' !in fields[k] && '\r' !in fields[k]
    requires forall k :: 0 <= k < |ending| ==> ending[k] == '\n' || ending[k] == '\r'
    ensures ParseTitleLine(Join(fields, "\t") + ending) == Some((Strip(fields[0]), CleanTitle(fields[|fields| - 1])))
  {
    JoinEndsWithField(fields);
    RStripNewlinesOver(Join(fields, "\t"), ending);
    FieldsOfJoin(fields);
  }

  /** Splitting the joined fields on tabs gives the fields back. */
  lemma FieldsOfJoin(fields: seq<string>)
    requires |fields| >= 2
    requires forall k :: 0 <= k < |fields| ==> '\t' !in fields[k] && '\n' !in fields[k] && '\r' !in fields[k]
    ensures FieldsOfLine(Join(fields, "\t")) == Some((Strip(fields[0]), CleanTitle(fields[|fields| - 1])))
  {
    JoinEndsWithField(fields);
    assert "\t" == ['\t'];
    SplitJoin(fields, '\t');
    FieldsOfParts(Join(fields, "\t"), fields);
  }

  /** The symbol and title of a line are its first and last tab-separated fields, cleaned. */
  lemma FieldsOfParts(stripped: string, parts: seq<string>)
    requires stripped != [] && Split(stripped, '\t') == parts && |parts| >= 2
    ensures FieldsOfLine(stripped) == Some((Strip(parts[0]), CleanTitle(parts[|parts| - 1])))
  {
    assert FieldsOfLine(stripped) == TitleOfFields(parts);
  }

  /** A join on tabs of newline-free fields ends with neither newline character. */
  lemma JoinEndsWithField(fields: seq<string>)
    requires |fields| >= 2
    requires forall k :: 0 <= k < |fields| ==> '\n' !in fields[k] && '\r' !in fields[k]
    ensures var body := Join(fields, "\t"); body != [] && body[|body| - 1] != '\n' && body[|body| - 1] != '\r'
  {
    var last := fields[|fields| - 1];
    assert fields[..|fields| - 1] + [last] == fields;
    JoinSnoc(fields[..|fields| - 1], "\t", last);
    if last != [] {
      assert last[|last| - 1] in last;
    }
  }

  /** The titles dictionary after reading `lines`: later lines overwrite earlier ones. */
  function TitlesFrom(lines: seq<string>): map<string, string> {
    Collect(lines, ParseTitleLine)
  }

  /** The title loop of `extract_titles`, over the lines of every `.txt` member in turn. */
  method ExtractTitles(lines: seq<string>) returns (titles: map<string, string>)
    ensures titles == TitlesFrom(lines)
  {
    titles := map[];
    var i := 0;
    while i < |lines|
      invariant 0 <= i <= |lines|
      invariant titles == TitlesFrom(lines[..i])
    {
      CollectStep(lines, ParseTitleLine, i);
      match ParseTitleLine(lines[i]) {
        case Some((symbol, title)) =>
          titles := titles[symbol := title];
        case None =>
      }
      i := i + 1;
    }
    assert lines[..|lines|] == lines;
  }

  /** A symbol named by a line and by no later line gets that line's title. */
  lemma TitlesLastWins(lines: seq<string>, i: nat, symbol: string, title: string)
    requires i < |lines| && ParseTitleLine(lines[i]) == Some((symbol, title))
    requires forall j :: i < j < |lines| ==> ParseTitleLine(lines[j]).None? || ParseTitleLine(lines[j]).value.0 != symbol
    ensures symbol in TitlesFrom(lines) && TitlesFrom(lines)[symbol] == title
  {
    CollectLastWins(lines, ParseTitleLine, i, symbol, title);
  }

  /** Only symbols named by some line get a title, and it is the title such a line gives. */
  lemma TitlesOnlyNamed(lines: seq<string>, symbol: string)
    requires symbol in TitlesFrom(lines)
    ensures exists i :: 0 <= i < |lines| && ParseTitleLine(lines[i]) == Some((symbol, TitlesFrom(lines)[symbol]))
  {
    CollectOnlyNamed(lines, ParseTitleLine, symbol);
  }

  // ---------------------------------------------------------------------
  // Rows of the classification table
  // ---------------------------------------------------------------------

  /**
   * One row of the symbol list as read from the CSV; an optional column is
   * `None` when the row has no such key.
   */
  datatype SymbolRecord = SymbolRecord(
    symbol: string,
    level: int,
    notAllocatable: Option<string>,
    additionalOnly: Option<string>,
    status: Option<string>)

  /** One row of the `cpc` table; `None` is SQL `NULL`. */
  datatype CpcRow = CpcRow(
    symbol: string,
    kind: string,
    parent: string,
    level: int,
    symbolShort: Option<string>,
    parentShort: Option<string>,
    symbolPatstat: Option<string>,
    titleEn: Option<string>,
    notAllocatable: int,
    additionalOnly: int,
    status: Option<string>)

  /** The root row inserted before all others. */
  const RootRow := CpcRow("CPC", "r", "", 1, Some("CPC"), None, None, Some("Cooperative Patent Classification"), 0, 0, None)

  const BatchSize := 10000

  /** `titles.get(symbol_short) or titles.get(symbol) or ""` */
  function LookupTitle(titles: map<string, string>, short: string, symbol: string): (title: string)
    ensures title != [] ==> (short in titles && titles[short] == title) || (symbol in titles && titles[symbol] == title)
    ensures short in titles && titles[short] != [] ==> title == titles[short]
    ensures !(short in titles && titles[short] != []) && symbol in titles ==> title == titles[symbol]
    ensures title == [] <==> (short !in titles || titles[short] == []) && (symbol !in titles || titles[symbol] == [])
  {
    if short in titles && titles[short] != [] then titles[short]
    else if symbol in titles && titles[symbol] != [] then titles[symbol]
    else ""
  }

  /** The symbol a deeper row hangs under: the last one seen at the level above, else its subclass. */
  function ParentSymbol(level: int, short: string, lastAtLevel: map<int, string>): string {
    if level - 1 in lastAtLevel then lastAtLevel[level - 1] else PrefixTo(short, 4)
  }

  /** A level-4 (class) row needs a non-blank symbol: its parent is the symbol's first character. */
  predicate Derivable(record: SymbolRecord) {
    record.level == 4 ==> SymbolToShort(Strip(record.symbol)) != []
  }

  /**
   * The body of the loop in `build_database` for one record, given
   * `last_at_level`. For a class the source takes `symbol_short[0]`, which
   * fails on a blank symbol; `BuildRows` requires `Derivable` of every
   * record, under which the one-character prefix used here is that character.
   */
  function DeriveRow(record: SymbolRecord, titles: map<string, string>, lastAtLevel: map<int, string>): CpcRow {
    var symbol := Strip(record.symbol);
    var short := SymbolToShort(symbol);
    var parents :=
      if record.level == 2 then ("CPC", "CPC")
      else if record.level == 4 then (PrefixTo(short, 1), PrefixTo(short, 1))
      else if record.level == 5 then (PrefixTo(short, 3), PrefixTo(short, 3))
      else if record.level == 7 then (PrefixTo(short, 4), PrefixTo(short, 4))
      else
        var p := ParentSymbol(record.level, short, lastAtLevel);
        (SymbolToZeropad(p), SymbolToShort(p));
    CpcRow(
      SymbolToZeropad(symbol), DetermineKind(record.level), parents.0, record.level,
      Some(short), Some(parents.1),
      if '/' in symbol then Some(symbol) else None,
      Some(LookupTitle(titles, short, symbol)),
      if record.notAllocatable == Some("TRUE") then 1 else 0,
      if record.additionalOnly == Some("TRUE") then 1 else 0,
      Some(if record.status.Some? then record.status.value else "published"))
  }

  /** `last_at_level[level] = symbol` for one record. */
  function Remember(lastAtLevel: map<int, string>, record: SymbolRecord): map<int, string> {
    lastAtLevel[record.level := Strip(record.symbol)]
  }

  /** `last_at_level` after the given records: each level maps to the last symbol seen at it. */
  function LastAfter(records: seq<SymbolRecord>): map<int, string> {
    Fold(records, map[], Remember)
  }

  /** The stripped symbol of the last record at `level`, if any. */
  function LatestAtLevel(records: seq<SymbolRecord>, level: int): (r: Option<string>)
    ensures r.Some? ==> exists k :: 0 <= k < |records| && records[k].level == level && Strip(records[k].symbol) == r.value
    ensures r.None? ==> forall k :: 0 <= k < |records| ==> records[k].level != level
    decreases |records|
  {
    if records == [] then None
    else if records[|records| - 1].level == level then Some(Strip(records[|records| - 1].symbol))
    else
      var r := LatestAtLevel(records[..|records| - 1], level);
      assert forall k :: 0 <= k < |records| - 1 ==> records[..|records| - 1][k] == records[k];
      r
  }

  function RowDeriver(titles: map<string, string>): (SymbolRecord, map<int, string>) -> CpcRow {
    (record, lastAtLevel) => DeriveRow(record, titles, lastAtLevel)
  }

  /** The rows derived from the records, in input order: row `k` from record `k` and the records before it. */
  function DeriveRows(records: seq<SymbolRecord>, titles: map<string, string>): (rows: seq<CpcRow>)
    ensures |rows| == |records|
  {
    Scan(records, map[], Remember, RowDeriver(titles))
  }

  /** `last_at_level` holds exactly the latest symbol of each level. */
  lemma {:induction false} LastAfterIsLatest(records: seq<SymbolRecord>, level: int)
    ensures level in LastAfter(records) <==> LatestAtLevel(records, level).Some?
    ensures level in LastAfter(records) ==> LastAfter(records)[level] == LatestAtLevel(records, level).value
    decreases |records|
  {
    if records != [] {
      LastAfterIsLatest(records[..|records| - 1], level);
      assert LastAfter(records) == Remember(LastAfter(records[..|records| - 1]), records[|records| - 1]);
    }
  }

  /**
   * The parent of row `i`: the root for sections, a prefix of the short
   * symbol for classes, subclasses and main groups, and for deeper levels
   * the latest symbol at the level above among the earlier records, or the
   * subclass when there is none.
   */
  lemma ParentOfRow(records: seq<SymbolRecord>, titles: map<string, string>, i: nat)
    requires i < |records| && Derivable(records[i])
    ensures var row := DeriveRows(records, titles)[i];
            var level := records[i].level;
            var short := SymbolToShort(Strip(records[i].symbol));
            (level == 2 ==> row.parent == "CPC" && row.parentShort == Some("CPC"))
            && (level == 4 ==> row.parentShort == Some([short[0]]) && row.parent == [short[0]])
            && (level == 5 ==> row.parentShort == Some(PrefixTo(short, 3)) && row.parent == PrefixTo(short, 3))
            && (level == 7 ==> row.parentShort == Some(PrefixTo(short, 4)) && row.parent == PrefixTo(short, 4))
            && (level != 2 && level != 4 && level != 5 && level != 7 ==>
                  var above := LatestAtLevel(records[..i], level - 1);
                  var p := if above.Some? then above.value else PrefixTo(short, 4);
                  row.parentShort == Some(SymbolToShort(p)) && row.parent == SymbolToZeropad(p))
  {
    var short := SymbolToShort(Strip(records[i].symbol));
    if records[i].level == 4 {
      assert PrefixTo(short, 1) == [short[0]];
    }
    LastAfterIsLatest(records[..i], records[i].level - 1);
  }

  /**
   * Each row keeps its record's level, carries its PATSTAT form exactly when
   * the symbol has a `/`, takes the title of its short form or else of its
   * symbol, and turns the `TRUE` flags into 1 and a missing status into
   * `published`.
   */
  lemma RowFields(records: seq<SymbolRecord>, titles: map<string, string>, i: nat)
    requires i < |records|
    ensures var row := DeriveRows(records, titles)[i];
            var symbol := Strip(records[i].symbol);
            row.level == records[i].level
            && row.symbol == SymbolToZeropad(symbol)
            && row.symbolShort == Some(SymbolToShort(symbol))
            && (row.symbolPatstat.Some? <==> '/' in symbol)
            && (row.symbolPatstat.Some? ==> row.symbolPatstat.value == symbol)
            && row.kind == DetermineKind(records[i].level)
            && row.titleEn == Some(LookupTitle(titles, SymbolToShort(symbol), symbol))
            && (row.notAllocatable == 1 <==> records[i].notAllocatable == Some("TRUE"))
            && (row.additionalOnly == 1 <==> records[i].additionalOnly == Some("TRUE"))
            && row.status == Some(if records[i].status.Some? then records[i].status.value else "published")
  {
  }

  /**
   * The derivation loop of `build_database`: one row per record, flushed to
   * the table in batches of 10000 and a final remainder. The returned batches
   * are the arguments of the successive `executemany` calls. A blank class
   * symbol stops the source with an index error, hence `Derivable`.
   */
  method BuildRows(records: seq<SymbolRecord>, titles: map<string, string>)
    returns (batches: seq<seq<CpcRow>>, rowsInserted: nat)
    requires forall k :: 0 <= k < |records| ==> Derivable(records[k])
    ensures Flatten(batches) == DeriveRows(records, titles)
    ensures rowsInserted == |records|
    ensures forall k :: 0 <= k < |batches| ==> 0 < |batches[k]| <= BatchSize
    ensures forall k :: 0 <= k < |batches| - 1 ==> |batches[k]| == BatchSize
  {
    batches, rowsInserted := BatchScan(records, map[], Remember, RowDeriver(titles));
  }

  /**
   * The loop of `BuildRows`, for any state (`last_at_level`), any update of
   * it per item and any derivation of a row from an item and the state left
   * by the items before it.
   */
  method BatchScan<T, S, R>(items: seq<T>, init: S, step: (S, T) -> S, derive: (T, S) -> R)
    returns (batches: seq<seq<R>>, count: nat)
    ensures Flatten(batches) == Scan(items, init, step, derive)
    ensures count == |items|
    ensures forall k :: 0 <= k < |batches| ==> 0 < |batches[k]| <= BatchSize
    ensures forall k :: 0 <= k < |batches| - 1 ==> |batches[k]| == BatchSize
  {
    var state := init;
    var batch: seq<R> := [];
    batches := [];
    count := 0;
    var i := 0;
    while i < |items|
      invariant 0 <= i <= |items|
      invariant state == Fold(items[..i], init, step)
      invariant Flatten(batches) + batch == Scan(items[..i], init, step, derive)
      invariant |batch| < BatchSize
      invariant forall k :: 0 <= k < |batches| ==> |batches[k]| == BatchSize
      invariant count == i
    {
      var row := derive(items[i], state);
      ScanStep(items, init, step, derive, i);
      state := step(state, items[i]);
      batches, batch := AppendRow(batches, batch, row);
      count := count + 1;
      i := i + 1;
    }
    assert items[..|items|] == items;
    batches := FlushRest(batches, batch);
  }

  /** `if batch: executemany(…, batch)`: the remainder, when there is one, is the last batch. */
  method FlushRest<R>(batches: seq<seq<R>>, batch: seq<R>) returns (batches': seq<seq<R>>)
    requires forall k :: 0 <= k < |batches| ==> |batches[k]| == BatchSize
    requires |batch| < BatchSize
    ensures Flatten(batches') == Flatten(batches) + batch
    ensures forall k :: 0 <= k < |batches'| ==> 0 < |batches'[k]| <= BatchSize
    ensures forall k :: 0 <= k < |batches'| - 1 ==> |batches'[k]| == BatchSize
  {
    batches' := batches;
    if batch != [] {
      FlattenSnoc(batches, batch);
      LastBatch(batches, batch);
      batches' := batches + [batch];
    } else {
      assert batch == [];
      assert Flatten(batches) + batch == Flatten(batches);
    }
  }

  /** Full batches followed by one non-empty remainder: every batch but the last is full. */
  lemma LastBatch<R>(batches: seq<seq<R>>, batch: seq<R>)
    requires forall k :: 0 <= k < |batches| ==> |batches[k]| == BatchSize
    requires 0 < |batch| < BatchSize
    ensures forall k :: 0 <= k < |batches + [batch]| ==> 0 < |(batches + [batch])[k]| <= BatchSize
    ensures forall k :: 0 <= k < |batches + [batch]| - 1 ==> |(batches + [batch])[k]| == BatchSize
  {
    forall k | 0 <= k < |batches + [batch]|
      ensures 0 < |(batches + [batch])[k]| <= BatchSize
      ensures k < |batches| ==> |(batches + [batch])[k]| == BatchSize
    {
      if k < |batches| { assert (batches + [batch])[k] == batches[k]; }
    }
  }

  /**
   * `batch.append(row)`, then the flush of a full batch: the rows sent so far
   * followed by the open batch grow by `row`, and only full batches are sent.
   */
  method AppendRow<R>(batches: seq<seq<R>>, batch: seq<R>, row: R)
    returns (batches': seq<seq<R>>, batch': seq<R>)
    requires |batch| < BatchSize
    requires forall k :: 0 <= k < |batches| ==> |batches[k]| == BatchSize
    ensures Flatten(batches') + batch' == Flatten(batches) + batch + [row]
    ensures |batch'| < BatchSize
    ensures forall k :: 0 <= k < |batches'| ==> |batches'[k]| == BatchSize
  {
    BatchAppend(batches, batch, row);
    batch' := batch + [row];
    batches' := batches;
    if |batch'| >= BatchSize {
      batches' := batches' + [batch'];
      batch' := [];
    }
  }
}
