/** The counting core of the `wc` clone: the two word tokenisers, the aggregation
    of standard input into [lines, words, size], the per-file rows of WcFile, and
    the printed rows with their 合計 (total) line. File contents and the lines of
    standard input are given as strings instead of being read. */
module Wc {
  import opened Text

  // ---------------------------------------------------------------------------
  // Tokenising: String#split with a separator pattern

  /** The two patterns wc.rb splits on: /\n|\t|\s+|　+/ for standard input,
      and /,/ for file lines after their separators were replaced by commas. */
  datatype Pattern = StdinPattern | Comma

  /** Ruby's \s: space, tab, newline, vertical tab, form feed, carriage return. */
  predicate IsAsciiSpace(c: char)
  {
    c == ' ' || c == '\t' || c == '\n' || c == '\U{000B}' || c == '\U{000C}' || c == '\r'
  }

  /** U+3000, the ideographic space. */
  const IdeographicSpace: char := '\U{3000}'

  /** The characters a match of the pattern can start with (and consist of). */
  predicate IsSeparator(c: char, pat: Pattern)
  {
    match pat
    case StdinPattern => IsAsciiSpace(c) || c == IdeographicSpace
    case Comma => c == ','
  }

  /** The length of the leading run of \s characters (ideographic = false) or of
      ideographic spaces (ideographic = true). */
  function Run(s: string, ideographic: bool): (n: nat)
    ensures n <= |s|
    ensures forall i :: 0 <= i < n ==> (if ideographic then s[i] == IdeographicSpace else IsAsciiSpace(s[i]))
    ensures n == |s| || !(if ideographic then s[n] == IdeographicSpace else IsAsciiSpace(s[n]))
  {
    if s == [] then 0
    else if (if ideographic then s[0] == IdeographicSpace else IsAsciiSpace(s[0])) then 1 + Run(s[1..], ideographic)
    else 0
  }

  /** The length of the match the pattern makes at the start of s (0: none). For
      the standard-input pattern the alternatives are tried in their order: a
      newline or a tab alone, then a greedy run of \s, then a run of ideographic
      spaces. */
  function MatchLength(s: string, pat: Pattern): (m: nat)
    ensures m <= |s|
    ensures m > 0 <==> s != [] && IsSeparator(s[0], pat)
    ensures forall i :: 0 <= i < m ==> IsSeparator(s[i], pat)
    ensures pat == Comma ==> m <= 1
    ensures pat == StdinPattern && s != [] && (s[0] == '\n' || s[0] == '\t') ==> m == 1
    ensures pat == StdinPattern && s != [] && s[0] != '\n' && s[0] != '\t' && IsAsciiSpace(s[0]) ==>
      (forall i :: 0 <= i < m ==> IsAsciiSpace(s[i])) && (m == |s| || !IsAsciiSpace(s[m]))
    ensures pat == StdinPattern && s != [] && s[0] == IdeographicSpace ==>
      (forall i :: 0 <= i < m ==> s[i] == IdeographicSpace) && (m == |s| || s[m] != IdeographicSpace)
  {
    if s == [] then 0
    else match pat
      case Comma => if s[0] == ',' then 1 else 0
      case StdinPattern =>
        if s[0] == '\n' || s[0] == '\t' then 1
        else if IsAsciiSpace(s[0]) then Run(s, false)
        else if s[0] == IdeographicSpace then Run(s, true)
        else 0
  }

  /** The fields between the matches of the pattern, trailing empty ones included. */
  function Fields(s: string, pat: Pattern): (r: seq<string>)
    ensures |r| >= 1
    decreases |s|
  {
    if s == [] then [[]]
    else
      var m := MatchLength(s, pat);
      if m > 0 then [[]] + Fields(s[m..], pat)
      else
        var f := Fields(s[1..], pat);
        [[s[0]] + f[0]] + f[1..]
  }

  /** Ruby's split removes the empty fields at the end. */
  function DropTrailingEmpty(fields: seq<string>): (r: seq<string>)
    ensures |r| <= |fields|
    ensures r == fields[..|r|]
    ensures r == [] || r[|r| - 1] != []
    ensures forall i :: |r| <= i < |fields| ==> fields[i] == []
  {
    if fields == [] then []
    else if fields[|fields| - 1] == [] then DropTrailingEmpty(fields[..|fields| - 1])
    else fields
  }

  /** String#split(pattern); the empty string splits into no fields. */
  function Split(s: string, pat: Pattern): (r: seq<string>)
    ensures |r| <= |Fields(s, pat)| && r == Fields(s, pat)[..|r|]
    ensures forall i :: |r| <= i < |Fields(s, pat)| ==> Fields(s, pat)[i] == []
    ensures r == [] || r[|r| - 1] != []
    ensures |r| <= |s|
  {
    FieldsCount(s, pat);
    DropTrailingEmpty(Fields(s, pat))
  }

  /** A text of n characters has at most n + 1 fields, and n + 1 only when the
      last of them is empty. */
  lemma {:induction false} FieldsCount(s: string, pat: Pattern)
    ensures |Fields(s, pat)| <= |s| + 1
    ensures |Fields(s, pat)| == |s| + 1 ==> Fields(s, pat)[|s|] == []
    decreases |s|
  {
    if s != [] {
      var m := MatchLength(s, pat);
      if m > 0 {
        FieldsCount(s[m..], pat);
      } else {
        FieldsCount(s[1..], pat);
      }
    }
  }

  /** The characters of s that are not separators, in order. */
  function NonSeparators(s: string, pat: Pattern): (r: string)
    ensures |r| <= |s|
  {
    if s == [] then [] else (if IsSeparator(s[0], pat) then [] else [s[0]]) + NonSeparators(s[1..], pat)
  }

  /** Together the fields hold exactly the characters of the text that are not
      separators, in order: splitting drops the separators and nothing else. */
  lemma {:induction false} FieldsContent(s: string, pat: Pattern)
    ensures Concat(Fields(s, pat)) == NonSeparators(s, pat)
    decreases |s|
  {
    if s != [] {
      var m := MatchLength(s, pat);
      if m > 0 {
        FieldsContent(s[m..], pat);
        SeparatorsDropped(s, m, pat);
        assert ([[]] + Fields(s[m..], pat))[1..] == Fields(s[m..], pat);
      } else {
        var f := Fields(s[1..], pat);
        FieldsContent(s[1..], pat);
        var r := [[s[0]] + f[0]] + f[1..];
        assert Concat(r) == [s[0]] + Concat(f) by {
          assert Concat(f) == f[0] + Concat(f[1..]);
          assert r[1..] == f[1..];
          AppendAssociative([s[0]], f[0], Concat(f[1..]));
        }
      }
    }
  }

  /** No field holds a separator. */
  lemma {:induction false} FieldsHaveNoSeparator(s: string, pat: Pattern)
    ensures forall k, j :: 0 <= k < |Fields(s, pat)| && 0 <= j < |Fields(s, pat)[k]| ==>
      !IsSeparator(Fields(s, pat)[k][j], pat)
    decreases |s|
  {
    if s != [] {
      var m := MatchLength(s, pat);
      if m > 0 {
        FieldsHaveNoSeparator(s[m..], pat);
      } else {
        var f := Fields(s[1..], pat);
        FieldsHaveNoSeparator(s[1..], pat);
        var r := [[s[0]] + f[0]] + f[1..];
        forall k, j | 0 <= k < |r| && 0 <= j < |r[k]| ensures !IsSeparator(r[k][j], pat) {
          if k == 0 && j > 0 {
            assert r[0][j] == f[0][j - 1];
          } else if k > 0 {
            assert r[k] == f[k];
          }
        }
      }
    }
  }

  /** A leading run of separators contributes nothing to the non-separators. */
  lemma {:induction false} SeparatorsDropped(s: string, m: nat, pat: Pattern)
    requires m <= |s|
    requires forall i :: 0 <= i < m ==> IsSeparator(s[i], pat)
    ensures NonSeparators(s, pat) == NonSeparators(s[m..], pat)
    decreases m
  {
    if m > 0 {
      SeparatorsDropped(s[1..], m - 1, pat);
      assert s[1..][m - 1..] == s[m..];
    }
  }

  /** A text made only of separators has only empty fields. */
  lemma {:induction false} FieldsAllSeparators(s: string, pat: Pattern)
    requires forall i :: 0 <= i < |s| ==> IsSeparator(s[i], pat)
    ensures forall k :: 0 <= k < |Fields(s, pat)| ==> Fields(s, pat)[k] == []
    decreases |s|
  {
    if s != [] {
      var m := MatchLength(s, pat);
      FieldsAllSeparators(s[m..], pat);
    }
  }

  /** A text with no separator is a single field. */
  lemma {:induction false} FieldsNoSeparator(s: string, pat: Pattern)
    requires forall i :: 0 <= i < |s| ==> !IsSeparator(s[i], pat)
    ensures Fields(s, pat) == [s]
    decreases |s|
  {
    if s != [] {
      FieldsNoSeparator(s[1..], pat);
      assert [s[0]] + s[1..] == s;
    }
  }

  /** Split yields no field exactly when the text has no character other than
      separators (the empty text included). */
  lemma SplitEmpty(s: string, pat: Pattern)
    ensures Split(s, pat) == [] <==> forall i :: 0 <= i < |s| ==> IsSeparator(s[i], pat)
  {
    var f := Fields(s, pat);
    if forall i :: 0 <= i < |s| ==> IsSeparator(s[i], pat) {
      FieldsAllSeparators(s, pat);
      DropAllEmpty(f);
    } else {
      var i :| 0 <= i < |s| && !IsSeparator(s[i], pat);
      NonSeparatorKept(s, i, pat);
      FieldsContent(s, pat);
      if Split(s, pat) == [] {
        ConcatOfEmpties(f);
        assert false;
      }
    }
  }

  lemma {:induction false} DropAllEmpty(fields: seq<string>)
    requires forall k :: 0 <= k < |fields| ==> fields[k] == []
    ensures DropTrailingEmpty(fields) == []
    decreases |fields|
  {
    if fields != [] {
      DropAllEmpty(fields[..|fields| - 1]);
    }
  }

  lemma {:induction false} ConcatOfEmpties(parts: seq<string>)
    requires forall k :: 0 <= k < |parts| ==> parts[k] == []
    ensures Concat(parts) == []
    decreases |parts|
  {
    if parts != [] {
      ConcatOfEmpties(parts[1..]);
    }
  }

  lemma {:induction false} NonSeparatorKept(s: string, i: nat, pat: Pattern)
    requires i < |s| && !IsSeparator(s[i], pat)
    ensures NonSeparators(s, pat) != []
    decreases i
  {
    if i > 0 && IsSeparator(s[0], pat) {
      NonSeparatorKept(s[1..], i - 1, pat);
    }
  }

  /** With the comma pattern there is one field more than there are commas: runs
      of commas leave empty fields between them. */
  lemma {:induction false} CommaFieldCount(s: string)
    ensures |Fields(s, Comma)| == Count(',', s) + 1
    decreases |s|
  {
    if s != [] {
      CommaFieldCount(s[1..]);
    }
  }

  /** When the text ends with a character that is not a separator, the last field
      is not empty, so split keeps every field. */
  lemma FieldsLastNonEmpty(s: string, pat: Pattern)
    requires s != [] && !IsSeparator(s[|s| - 1], pat)
    ensures Fields(s, pat)[|Fields(s, pat)| - 1] != []
    ensures Split(s, pat) == Fields(s, pat)
  {
    LastFieldNonEmpty(s, pat);
  }

  lemma {:induction false} LastFieldNonEmpty(s: string, pat: Pattern)
    requires s != [] && !IsSeparator(s[|s| - 1], pat)
    ensures Fields(s, pat)[|Fields(s, pat)| - 1] != []
    decreases |s|
  {
    var m := MatchLength(s, pat);
    if m > 0 {
      MatchBeforeEnd(s, pat);
      LastFieldNonEmpty(s[m..], pat);
      LastFieldAfterMatch(s, pat);
    } else if |s| == 1 {
      assert Fields(s, pat)[0] == [s[0]];
    } else {
      assert s[1..][|s[1..]| - 1] == s[|s| - 1];
      LastFieldNonEmpty(s[1..], pat);
      LastFieldAfterChar(s, pat);
    }
  }

  /** A match cannot swallow a last character that is not a separator. */
  lemma MatchBeforeEnd(s: string, pat: Pattern)
    requires s != [] && !IsSeparator(s[|s| - 1], pat)
    ensures MatchLength(s, pat) < |s|
    ensures s[MatchLength(s, pat)..][|s| - MatchLength(s, pat) - 1] == s[|s| - 1]
  {
  }

  lemma LastFieldAfterMatch(s: string, pat: Pattern)
    requires 0 < MatchLength(s, pat) < |s|
    requires Fields(s[MatchLength(s, pat)..], pat)[|Fields(s[MatchLength(s, pat)..], pat)| - 1] != []
    ensures Fields(s, pat)[|Fields(s, pat)| - 1] != []
  {
    var f := Fields(s[MatchLength(s, pat)..], pat);
    LastOfCons(Fields(s, pat), [], f);
  }

  lemma LastFieldAfterChar(s: string, pat: Pattern)
    requires |s| > 1 && MatchLength(s, pat) == 0
    requires Fields(s[1..], pat)[|Fields(s[1..], pat)| - 1] != []
    ensures Fields(s, pat)[|Fields(s, pat)| - 1] != []
  {
    var f := Fields(s[1..], pat);
    if |f| > 1 {
      LastOfCons(Fields(s, pat), [s[0]] + f[0], f[1..]);
    }
  }

  lemma LastOfCons(all: seq<string>, h: string, f: seq<string>)
    requires f != [] && all == [h] + f
    ensures all[|all| - 1] == f[|f| - 1]
  {
  }

  // ---------------------------------------------------------------------------
  // Standard input (number_of_words, parse_standard_input)

  /** number_of_words: the number of fields split leaves in a line of standard input. */
  function NumberOfWords(line: string): (n: nat)
    ensures n <= |line|
  {
    |Split(line, StdinPattern)|
  }

  /** An empty line, or one made only of separators, has no word; a line with
      any other character has at least one; a non-empty line without separators
      has exactly one. */
  lemma NumberOfWordsBounds(line: string)
    ensures NumberOfWords(line) == 0 <==> forall i :: 0 <= i < |line| ==> IsSeparator(line[i], StdinPattern)
    ensures line != [] && (forall i :: 0 <= i < |line| ==> !IsSeparator(line[i], StdinPattern)) ==>
      NumberOfWords(line) == 1
  {
    SplitEmpty(line, StdinPattern);
    if line != [] && forall i :: 0 <= i < |line| ==> !IsSeparator(line[i], StdinPattern) {
      FieldsNoSeparator(line, StdinPattern);
    }
  }

  /** A run of spaces or tabs between two words separates them once: the
      standard-input pattern never yields an empty interior field for it. */
  lemma NumberOfWordsTwoWords(a: string, sep: string, b: string)
    requires a != [] && b != [] && sep != []
    requires forall i :: 0 <= i < |a| ==> !IsSeparator(a[i], StdinPattern)
    requires forall i :: 0 <= i < |b| ==> !IsSeparator(b[i], StdinPattern)
    requires forall i :: 0 <= i < |sep| ==> sep[i] == ' '
    ensures NumberOfWords(a + sep + b) == 2
  {
    FieldsPrefixWord(a, sep + b);
    var rest := sep + b;
    assert Run(rest, false) == |sep| by {
      RunOfSpaces(sep, b);
    }
    assert rest[|sep|..] == b;
    FieldsNoSeparator(b, StdinPattern);
    assert Fields(rest, StdinPattern) == [[], b];
    assert a + sep + b == a + rest;
    FieldsLastNonEmpty(a + rest, StdinPattern);
  }

  lemma {:induction false} RunOfSpaces(sep: string, b: string)
    requires forall i :: 0 <= i < |sep| ==> sep[i] == ' '
    requires b != [] && !IsSeparator(b[0], StdinPattern)
    ensures Run(sep + b, false) == |sep|
    decreases |sep|
  {
    if sep == [] {
      assert sep + b == b;
    } else {
      RunOfSpaces(sep[1..], b);
      assert (sep + b)[1..] == sep[1..] + b;
    }
  }

  /** The alternatives are tried in order, so a tab or a newline is matched on its
      own: two tabs between words leave an empty field, while a run that starts
      with a space takes the tab with it. */
  lemma TabsMatchSingly()
    ensures NumberOfWords("a\t\tb") == 3
    ensures NumberOfWords("a \t b") == 2
  {
    TwoTabs();
    SpaceTabSpace();
  }

  lemma TwoTabs()
    ensures Fields("a\t\tb", StdinPattern) == ["a", [], "b"]
  {
    FieldsNoSeparator("b", StdinPattern);
    FieldsPrefixWord("a", "\t\tb");
    assert "a" + "\t\tb" == "a\t\tb";
    assert Fields("\t\tb", StdinPattern) == [[], [], "b"] by {
      assert "\t\tb"[1..] == "\tb" && "\tb"[1..] == "b";
    }
  }

  lemma SpaceTabSpace()
    ensures Fields("a \t b", StdinPattern) == ["a", "b"]
  {
    FieldsPrefixWord("a", " \t b");
    assert "a" + " \t b" == "a \t b";
    SpaceTabSpaceRun();
  }

  lemma SpaceTabSpaceRun()
    ensures Fields(" \t b", StdinPattern) == [[], "b"]
  {
    FieldsNoSeparator("b", StdinPattern);
    assert Run("b", false) == 0;
    assert Run(" b", false) == 1 by { assert " b"[1..] == "b"; }
    assert Run("\t b", false) == 2 by { assert "\t b"[1..] == " b"; }
    assert Run(" \t b", false) == 3 by { assert " \t b"[1..] == "\t b"; }
    assert " \t b"[3..] == "b";
  }

  /** A word followed by text that starts with a separator forms the first field. */
  lemma {:induction false} FieldsPrefixWord(a: string, rest: string)
    requires forall i :: 0 <= i < |a| ==> !IsSeparator(a[i], StdinPattern)
    requires rest != [] && IsSeparator(rest[0], StdinPattern)
    ensures Fields(a + rest, StdinPattern) == [a] + Fields(rest, StdinPattern)[1..]
    decreases |a|
  {
    if a != [] {
      var s := a + rest;
      assert s[1..] == a[1..] + rest;
      assert MatchLength(s, StdinPattern) == 0 by {
        assert s[0] == a[0];
      }
      FieldsPrefixWord(a[1..], rest);
      assert [a[0]] + a[1..] == a;
    } else {
      assert a + rest == rest;
      assert Fields(rest, StdinPattern)[0] == [];
    }
  }

  /** The total of number_of_words over lines. */
  function SumWords(lines: seq<string>): nat
  {
    if lines == [] then 0 else SumWords(lines[..|lines| - 1]) + NumberOfWords(lines[|lines| - 1])
  }

  /** The total of String#size (characters) over lines. */
  function SumSizes(lines: seq<string>): (n: nat)
  {
    if lines == [] then 0 else SumSizes(lines[..|lines| - 1]) + |lines[|lines| - 1]|
  }

  lemma {:induction false} SumWordsAppend(a: seq<string>, b: seq<string>)
    ensures SumWords(a + b) == SumWords(a) + SumWords(b)
    decreases |b|
  {
    if b == [] {
      assert a + b == a;
    } else {
      SumWordsAppend(a, b[..|b| - 1]);
      assert (a + b)[..|a + b| - 1] == a + b[..|b| - 1];
    }
  }

  lemma {:induction false} SumSizesAppend(a: seq<string>, b: seq<string>)
    ensures SumSizes(a + b) == SumSizes(a) + SumSizes(b)
    decreases |b|
  {
    if b == [] {
      assert a + b == a;
    } else {
      SumSizesAppend(a, b[..|b| - 1]);
      assert (a + b)[..|a + b| - 1] == a + b[..|b| - 1];
    }
  }

  /** The sizes of some parts add up to the size of their concatenation. */
  lemma {:induction false} SumSizesConcat(parts: seq<string>)
    ensures SumSizes(parts) == |Concat(parts)|
    decreases |parts|
  {
    if parts != [] {
      SumSizesConcat(parts[1..]);
      SumSizesAppend([parts[0]], parts[1..]);
      assert [parts[0]] + parts[1..] == parts;
      assert SumSizes([parts[0]]) == |parts[0]| by {
        assert [parts[0]][..0] == [];
      }
    }
  }

  /** The three counts of standard input or of a file. */
  datatype Counts = Counts(lines: nat, words: nat, bytes: nat)

  /** parse_standard_input: the number of lines, the total of number_of_words
      over them, and the total of their sizes. */
  method ParseStandardInput(lines: seq<string>) returns (r: Counts)
    ensures r.lines == |lines|
    ensures r.words == SumWords(lines)
    ensures r.bytes == SumSizes(lines)
  {
    var numberOfWords := 0;
    var numberOfBytes := 0;
    for i := 0 to |lines|
      invariant numberOfWords == SumWords(lines[..i])
      invariant numberOfBytes == SumSizes(lines[..i])
    {
      assert lines[..i + 1][..i] == lines[..i];
      numberOfWords := numberOfWords + NumberOfWords(lines[i]);
      numberOfBytes := numberOfBytes + |lines[i]|;
    }
    assert lines[..|lines|] == lines;
    r := Counts(|lines|, numberOfWords, numberOfBytes);
  }

  /** For standard input read with readlines, the line count is the number of
      newlines (plus one for an unterminated last line) and the size column is
      the number of characters of the whole input. */
  lemma StdinCountsOfText(text: string)
    ensures |EachLine(text)| == Count('\n', text) + (if text != [] && text[|text| - 1] != '\n' then 1 else 0)
    ensures SumSizes(EachLine(text)) == |text|
  {
    EachLineCount(text);
    SumSizesConcat(EachLine(text));
    EachLineRoundTrip(text);
  }

  /** Two inputs read one after the other, the first ending in a newline, count
      as the sum of their counts. */
  lemma StdinCountsAdd(a: string, b: string)
    requires a == [] || a[|a| - 1] == '\n'
    ensures |EachLine(a + b)| == |EachLine(a)| + |EachLine(b)|
    ensures SumWords(EachLine(a + b)) == SumWords(EachLine(a)) + SumWords(EachLine(b))
    ensures SumSizes(EachLine(a + b)) == SumSizes(EachLine(a)) + SumSizes(EachLine(b))
  {
    EachLineAppend(a, b);
    SumWordsAppend(EachLine(a), EachLine(b));
    SumSizesAppend(EachLine(a), EachLine(b));
  }

  // ---------------------------------------------------------------------------
  // Files (WcFile, parse_arguments)

  /** The characters the character class [\n|\t|\s|　] matches: \s, '|' and U+3000. */
  predicate IsFileSeparator(c: char)
  {
    IsAsciiSpace(c) || c == '|' || c == IdeographicSpace
  }

  /** line.gsub!(/[\n|\t|\s|　]/, ','): every separator character becomes a comma. */
  function ReplaceSeparators(line: string): (r: string)
    ensures |r| == |line|
    ensures forall i :: 0 <= i < |line| ==> (r[i] == ',' <==> line[i] == ',' || IsFileSeparator(line[i]))
    ensures forall i :: 0 <= i < |line| && !IsFileSeparator(line[i]) ==> r[i] == line[i]
  {
    seq(|line|, i requires 0 <= i < |line| => if IsFileSeparator(line[i]) then ',' else line[i])
  }

  /** The words WcFile#number_of_words counts in one line. */
  function FileLineWords(line: string): (n: nat)
    ensures n <= |line|
  {
    |Split(ReplaceSeparators(line), Comma)|
  }

  /** How many characters of a line act as separators for files (commas included). */
  function SeparatorCount(line: string): (n: nat)
    ensures n <= |line|
  {
    if line == [] then 0
    else (if line[0] == ',' || IsFileSeparator(line[0]) then 1 else 0) + SeparatorCount(line[1..])
  }

  lemma {:induction false} CommasAfterReplace(line: string)
    ensures Count(',', ReplaceSeparators(line)) == SeparatorCount(line)
    decreases |line|
  {
    if line != [] {
      CommasAfterReplace(line[1..]);
      assert ReplaceSeparators(line)[1..] == ReplaceSeparators(line[1..]);
    }
  }

  /** For a line that does not end in a separator, the file count is one more
      than the number of separator characters: each separator, even one of a
      run, and each literal comma adds a word. */
  lemma FileLineWordsCount(line: string)
    requires line != [] && line[|line| - 1] != ',' && !IsFileSeparator(line[|line| - 1])
    ensures FileLineWords(line) == SeparatorCount(line) + 1
  {
    var r := ReplaceSeparators(line);
    FieldsLastNonEmpty(r, Comma);
    CommaFieldCount(r);
    CommasAfterReplace(line);
  }

  /** A comma at the end of a text adds one empty field after the others. */
  lemma {:induction false} FieldsSnocComma(r: string)
    ensures Fields(r + [','], Comma) == Fields(r, Comma) + [[]]
    decreases |r|
  {
    if r == [] {
      assert [] + [','] == [','];
      assert [','][1..] == [];
    } else {
      assert (r + [','])[1..] == r[1..] + [','];
      FieldsSnocComma(r[1..]);
    }
  }

  /** A separator at the end of a line, such as the newline each_line keeps,
      adds no word. */
  lemma FileLineWordsTrailing(line: string, c: char)
    requires c == ',' || IsFileSeparator(c)
    ensures FileLineWords(line + [c]) == FileLineWords(line)
  {
    var r := ReplaceSeparators(line);
    assert ReplaceSeparators(line + [c]) == r + [','];
    FieldsSnocComma(r);
    var f := Fields(r, Comma);
    assert (f + [[]])[..|f + [[]]| - 1] == f;
  }

  /** Two words and a single space are two words, with or without the newline
      that ends the line, so "foo bar\n" counts 2. */
  lemma FileLineWordsOfLine(a: string, b: string)
    requires a != [] && b != []
    requires forall i :: 0 <= i < |a| ==> a[i] != ',' && !IsFileSeparator(a[i])
    requires forall i :: 0 <= i < |b| ==> b[i] != ',' && !IsFileSeparator(b[i])
    ensures FileLineWords(a + " " + b) == 2
    ensures FileLineWords(a + " " + b + "\n") == 2
  {
    var line := a + " " + b;
    assert line[|line| - 1] == b[|b| - 1];
    FileLineWordsCount(line);
    SeparatorCountOfWords(a, b);
    assert line + "\n" == line + ['\n'];
    FileLineWordsTrailing(line, '\n');
  }

  /** Two words joined by one space hold one separator. */
  lemma SeparatorCountOfWords(a: string, b: string)
    requires forall i :: 0 <= i < |a| ==> a[i] != ',' && !IsFileSeparator(a[i])
    requires forall i :: 0 <= i < |b| ==> b[i] != ',' && !IsFileSeparator(b[i])
    ensures SeparatorCount(a + " " + b) == 1
  {
    SeparatorCountNone(a);
    SeparatorCountNone(b);
    SeparatorCountJoin(a, b);
  }

  lemma SeparatorCountJoin(a: string, b: string)
    ensures SeparatorCount(a + " " + b) == SeparatorCount(a) + 1 + SeparatorCount(b)
  {
    assert a + " " + b == a + (" " + b);
    SeparatorCountAppend(a, " " + b);
    SeparatorCountAppend(" ", b);
    assert SeparatorCount(" ") == 1 by {
      assert " "[1..] == [];
    }
  }

  lemma {:induction false} SeparatorCountAppend(a: string, b: string)
    ensures SeparatorCount(a + b) == SeparatorCount(a) + SeparatorCount(b)
    decreases |a|
  {
    if a == [] {
      assert a + b == b;
    } else {
      assert (a + b)[1..] == a[1..] + b;
      SeparatorCountAppend(a[1..], b);
    }
  }

  lemma {:induction false} SeparatorCountNone(a: string)
    requires forall i :: 0 <= i < |a| ==> a[i] != ',' && !IsFileSeparator(a[i])
    ensures SeparatorCount(a) == 0
    decreases |a|
  {
    if a != [] {
      SeparatorCountNone(a[1..]);
    }
  }

  /** A line without separator characters is one word; an empty line or one of
      separators only (such as a blank line) is none. */
  lemma FileLineWordsBounds(line: string)
    ensures (forall i :: 0 <= i < |line| ==> line[i] == ',' || IsFileSeparator(line[i])) ==> FileLineWords(line) == 0
    ensures line != [] && (forall i :: 0 <= i < |line| ==> line[i] != ',' && !IsFileSeparator(line[i])) ==>
      FileLineWords(line) == 1
  {
    var r := ReplaceSeparators(line);
    SplitEmpty(r, Comma);
    if line != [] && forall i :: 0 <= i < |line| ==> line[i] != ',' && !IsFileSeparator(line[i]) {
      FieldsNoSeparator(r, Comma);
    }
  }

  /** The two tokenisers disagree: "a  b" is two words on standard input and
      three in a file, the doubled space leaving an empty field. */
  lemma TokenisersDiffer()
    ensures NumberOfWords("a  b") == 2
    ensures FileLineWords("a  b") == 3
  {
    NumberOfWordsTwoWords("a", "  ", "b");
    assert "a" + "  " + "b" == "a  b";
    FileLineWordsCount("a  b");
    assert SeparatorCount("a  b") == 2 by {
      assert "a  b"[1..] == "  b" && "  b"[1..] == " b" && " b"[1..] == "b" && "b"[1..] == [];
    }
  }

  /** The total of FileLineWords over lines. */
  function SumFileWords(lines: seq<string>): nat
  {
    if lines == [] then 0 else SumFileWords(lines[..|lines| - 1]) + FileLineWords(lines[|lines| - 1])
  }

  /** The word count of a file's content. */
  function FileWords(content: string): nat
  {
    SumFileWords(EachLine(content))
  }

  /** The number of bytes UTF-8 uses for a character. */
  function Utf8Width(c: char): (w: nat)
    ensures 1 <= w <= 4
    ensures w == 1 <==> (c as int) < 0x80
  {
    if (c as int) < 0x80 then 1 else if (c as int) < 0x800 then 2 else if (c as int) < 0x10000 then 3 else 4
  }

  /** File#size of a file holding the text, in UTF-8. */
  function Utf8Length(s: string): (n: nat)
    ensures n >= |s|
  {
    if s == [] then 0 else Utf8Width(s[0]) + Utf8Length(s[1..])
  }

  /** The byte count equals the character count exactly for ASCII text. */
  lemma {:induction false} Utf8LengthAscii(s: string)
    ensures Utf8Length(s) == |s| <==> forall i :: 0 <= i < |s| ==> (s[i] as int) < 0x80
    decreases |s|
  {
    if s != [] {
      Utf8LengthAscii(s[1..]);
      assert forall i :: 1 <= i < |s| ==> s[i] == s[1..][i - 1];
    }
  }

  /** A file named on the command line; its content stands for what File.open reads. */
  class WcFile {
    const file: string
    const content: string

    constructor (file: string, content: string)
      ensures this.file == file && this.content == content
    {
      this.file := file;
      this.content := content;
    }

    /** number_of_lines: collects the lines each_line yields and counts them. */
    method NumberOfLines() returns (n: nat)
      ensures n == |EachLine(content)|
      ensures n == Count('\n', content) + (if content != [] && content[|content| - 1] != '\n' then 1 else 0)
    {
      var source := EachLine(content);
      var lines: seq<string> := [];
      for i := 0 to |source|
        invariant lines == source[..i]
      {
        lines := lines + [source[i]];
      }
      assert lines == source;
      EachLineCount(content);
      n := |lines|;
    }

    /** number_of_words: per line, separators become commas and the fields of
        the comma split are counted. */
    method NumberOfWords() returns (count: nat)
      ensures count == FileWords(content)
    {
      var lines := EachLine(content);
      count := 0;
      for i := 0 to |lines|
        invariant count == SumFileWords(lines[..i])
      {
        assert lines[..i + 1][..i] == lines[..i];
        var line := ReplaceSeparators(lines[i]);
        var fields := Split(line, Comma);
        count := count + |fields|;
      }
      assert lines[..|lines|] == lines;
    }

    /** number_of_bytes: the size of the file. */
    method NumberOfBytes() returns (n: nat)
      ensures n == Utf8Length(content)
      ensures n >= |content|
    {
      n := Utf8Length(content);
    }
  }

  /** A command-line argument together with the content of the file it names. */
  datatype FileInput = FileInput(name: string, content: string)

  /** A row [name, lines, words, bytes] of parse_arguments. */
  datatype FileRow = FileRow(name: string, lines: nat, words: nat, bytes: nat)

  /** The row parse_arguments makes of one file. */
  function RowOf(f: FileInput): (r: FileRow)
    ensures r.name == f.name
    ensures r.lines == Count('\n', f.content) +
      (if f.content != [] && f.content[|f.content| - 1] != '\n' then 1 else 0)
    ensures r.bytes >= |f.content|
  {
    EachLineCount(f.content);
    FileRow(f.name, |EachLine(f.content)|, FileWords(f.content), Utf8Length(f.content))
  }

  /** parse_arguments: one row per argument, in argument order. */
  method ParseArguments(files: seq<FileInput>) returns (rows: seq<FileRow>)
    ensures |rows| == |files|
    ensures forall i :: 0 <= i < |files| ==> rows[i] == RowOf(files[i])
  {
    rows := [];
    for i := 0 to |files|
      invariant |rows| == i
      invariant forall j :: 0 <= j < i ==> rows[j] == RowOf(files[j])
    {
      var wf := new WcFile(files[i].name, files[i].content);
      var lines := wf.NumberOfLines();
      var words := wf.NumberOfWords();
      var bytes := wf.NumberOfBytes();
      rows := rows + [FileRow(files[i].name, lines, words, bytes)];
    }
  }

  // ---------------------------------------------------------------------------
  // Printing (print_wc_result, print_wc_line, print_wc_stdin)

  /** The two shapes of result: the counts of standard input, or one row per file. */
  datatype WcResult = StdinResult(counts: Counts) | FileResults(rows: seq<FileRow>)

  function SumLines(rows: seq<FileRow>): nat
  {
    if rows == [] then 0 else SumLines(rows[..|rows| - 1]) + rows[|rows| - 1].lines
  }

  function SumRowWords(rows: seq<FileRow>): nat
  {
    if rows == [] then 0 else SumRowWords(rows[..|rows| - 1]) + rows[|rows| - 1].words
  }

  function SumBytes(rows: seq<FileRow>): nat
  {
    if rows == [] then 0 else SumBytes(rows[..|rows| - 1]) + rows[|rows| - 1].bytes
  }

  /** The column totals of a listing split in two are the sums of the parts' totals. */
  lemma {:induction false} SumsAppend(a: seq<FileRow>, b: seq<FileRow>)
    ensures SumLines(a + b) == SumLines(a) + SumLines(b)
    ensures SumRowWords(a + b) == SumRowWords(a) + SumRowWords(b)
    ensures SumBytes(a + b) == SumBytes(a) + SumBytes(b)
    decreases |b|
  {
    if b == [] {
      assert a + b == a;
    } else {
      SumsAppend(a, b[..|b| - 1]);
      assert (a + b)[..|a + b| - 1] == a + b[..|b| - 1];
    }
  }

  /** A total is at least any one row's count, and zero only when every row's is. */
  lemma {:induction false} SumLinesBounds(rows: seq<FileRow>)
    ensures forall i :: 0 <= i < |rows| ==> rows[i].lines <= SumLines(rows)
    ensures SumLines(rows) == 0 <==> forall i :: 0 <= i < |rows| ==> rows[i].lines == 0
    decreases |rows|
  {
    if rows != [] {
      var init := rows[..|rows| - 1];
      SumLinesBounds(init);
      assert forall i :: 0 <= i < |init| ==> rows[i] == init[i];
    }
  }

  /** The total line of the -l listing. */
  function LineTotalText(rows: seq<FileRow>): (t: string)
    ensures |t| >= |IntToString(SumLines(rows))| + 3
    ensures t[..|IntToString(SumLines(rows))|] == IntToString(SumLines(rows))
    ensures t[|t| - 3..] == " 合計"
  {
    IntToString(SumLines(rows)) + " 合計"
  }

  /** The total line of the full listing. */
  function FullTotalText(rows: seq<FileRow>): (t: string)
    ensures |t| >= |IntToString(SumLines(rows))| + 3
    ensures t[..|IntToString(SumLines(rows))|] == IntToString(SumLines(rows))
    ensures t[|t| - 3..] == " 合計"
  {
    IntToString(SumLines(rows)) + " " + IntToString(SumRowWords(rows)) + " " + IntToString(SumBytes(rows)) + " 合計"
  }

  function LineRowText(r: FileRow): (t: string)
    ensures |t| >= |IntToString(r.lines)| + 1 + |r.name|
    ensures t[..|IntToString(r.lines)|] == IntToString(r.lines)
    ensures t[|t| - |r.name| - 1..] == " " + r.name
  {
    IntToString(r.lines) + " " + r.name
  }

  function FullRowText(r: FileRow): (t: string)
    ensures |t| >= |IntToString(r.lines)| + 1 + |r.name|
    ensures t[..|IntToString(r.lines)|] == IntToString(r.lines)
    ensures t[|t| - |r.name| - 1..] == " " + r.name
  {
    IntToString(r.lines) + " " + IntToString(r.words) + " " + IntToString(r.bytes) + " " + r.name
  }

  function LineRowTexts(rows: seq<FileRow>): seq<string>
  {
    Map(rows, LineRowText)
  }

  function FullRowTexts(rows: seq<FileRow>): seq<string>
  {
    Map(rows, FullRowText)
  }

  /** Adding a row adds its counts to the totals. */
  lemma SumsStep(rows: seq<FileRow>, i: nat)
    requires i < |rows|
    ensures SumLines(rows[..i + 1]) == SumLines(rows[..i]) + rows[i].lines
    ensures SumRowWords(rows[..i + 1]) == SumRowWords(rows[..i]) + rows[i].words
    ensures SumBytes(rows[..i + 1]) == SumBytes(rows[..i]) + rows[i].bytes
  {
    assert rows[..i + 1][..i] == rows[..i];
  }

  lemma LineRowTextsStep(rows: seq<FileRow>, i: nat)
    requires i < |rows|
    ensures PutsAll(LineRowTexts(rows[..i + 1])) ==
      PutsAll(LineRowTexts(rows[..i])) + Puts(IntToString(rows[i].lines) + " " + rows[i].name)
  {
    MapSnoc(rows, i, LineRowText);
    PutsAllAppendOne(LineRowTexts(rows[..i]), LineRowText(rows[i]));
  }

  lemma FullRowTextsStep(rows: seq<FileRow>, i: nat)
    requires i < |rows|
    ensures PutsAll(FullRowTexts(rows[..i + 1])) == PutsAll(FullRowTexts(rows[..i])) + Puts(FullRowText(rows[i]))
  {
    MapSnoc(rows, i, FullRowText);
    PutsAllAppendOne(FullRowTexts(rows[..i]), FullRowText(rows[i]));
  }

  /** print_wc_line: each row's line count and name, then the total of the line counts. */
  method PrintWcLine(results: seq<FileRow>) returns (out: string)
    ensures out == PutsAll(LineRowTexts(results) + [LineTotalText(results)])
  {
    out := "";
    var sumLines := 0;
    for i := 0 to |results|
      invariant out == PutsAll(LineRowTexts(results[..i]))
      invariant sumLines == SumLines(results[..i])
    {
      var r := results[i];
      LineRowTextsStep(results, i);
      SumsStep(results, i);
      out := out + Puts(IntToString(r.lines) + " " + r.name);
      sumLines := sumLines + r.lines;
    }
    assert results[..|results|] == results;
    PutsAllAppendOne(LineRowTexts(results), LineTotalText(results));
    out := out + Puts(IntToString(sumLines) + " 合計");
  }

  /** print_wc_stdin (used for files without -l): each row's three counts and
      name, then the three column totals. */
  method PrintWcStdin(results: seq<FileRow>) returns (out: string)
    ensures out == PutsAll(FullRowTexts(results) + [FullTotalText(results)])
  {
    out := "";
    var sumLines := 0;
    var sumWords := 0;
    var sumBytes := 0;
    for i := 0 to |results|
      invariant out == PutsAll(FullRowTexts(results[..i]))
      invariant sumLines == SumLines(results[..i])
      invariant sumWords == SumRowWords(results[..i])
      invariant sumBytes == SumBytes(results[..i])
    {
      var r := results[i];
      FullRowTextsStep(results, i);
      SumsStep(results, i);
      out := out + Puts(IntToString(r.lines) + " " + IntToString(r.words) + " " + IntToString(r.bytes) + " " + r.name);
      sumLines := sumLines + r.lines;
      sumWords := sumWords + r.words;
      sumBytes := sumBytes + r.bytes;
    }
    assert results[..|results|] == results;
    PutsAllAppendOne(FullRowTexts(results), FullTotalText(results));
    out := out + Puts(IntToString(sumLines) + " " + IntToString(sumWords) + " " + IntToString(sumBytes) + " 合計");
  }

  /** The text for standard-input counts: the line count alone with -l, all
      three separated by spaces otherwise. */
  function StdinText(c: Counts, lineFlag: bool): (t: string)
    ensures |t| >= |IntToString(c.lines)| && t[..|IntToString(c.lines)|] == IntToString(c.lines)
    ensures '\n' !in t
  {
    NumbersNoNewline(c.lines, c.words, c.bytes);
    if lineFlag then IntToString(c.lines)
    else IntToString(c.lines) + " " + IntToString(c.words) + " " + IntToString(c.bytes)
  }

  /** print_wc_result: file rows go to print_wc_line with -l and to
      print_wc_stdin without it; standard-input counts are printed on one line.
      The file branch reads results[0], so it needs at least one row. */
  method PrintWcResult(results: WcResult, lineFlag: bool) returns (out: string)
    requires results.FileResults? ==> results.rows != []
    ensures results.StdinResult? ==> out == Puts(StdinText(results.counts, lineFlag))
    ensures results.FileResults? && lineFlag ==>
      out == PutsAll(LineRowTexts(results.rows) + [LineTotalText(results.rows)])
    ensures results.FileResults? && !lineFlag ==>
      out == PutsAll(FullRowTexts(results.rows) + [FullTotalText(results.rows)])
  {
    match results
    case FileResults(rows) =>
      if lineFlag {
        out := PrintWcLine(rows);
      } else {
        out := PrintWcStdin(rows);
      }
    case StdinResult(c) =>
      out := Puts(if lineFlag then IntToString(c.lines)
                  else IntToString(c.lines) + " " + IntToString(c.words) + " " + IntToString(c.bytes));
  }

  /** Standard-input counts print as exactly one line. */
  lemma StdinOutputOneLine(c: Counts, lineFlag: bool)
    ensures EachLine(Puts(StdinText(c, lineFlag))) == [StdinText(c, lineFlag) + "\n"]
  {
    var t := StdinText(c, lineFlag);
    assert '\n' !in t by {
      NumbersNoNewline(c.lines, c.words, c.bytes);
    }
    assert Puts(t) == PutsAll([t]) by {
      assert [t][..0] == [];
    }
    PutsAllReadBack([t]);
  }

  /** With -l that line is the line count; without it, the line, word and size
      counts in that order, separated by single spaces. */
  lemma StdinTextFields(c: Counts, lineFlag: bool)
    ensures lineFlag ==> StdinText(c, lineFlag) == IntToString(c.lines)
    ensures !lineFlag ==> Count(' ', StdinText(c, lineFlag)) == 2
    ensures !lineFlag ==> StdinText(c, lineFlag)[..|IntToString(c.lines)| + 1] == IntToString(c.lines) + " "
  {
    if !lineFlag {
      ThreeNumbers(c.lines, c.words, c.bytes);
    }
  }

  lemma NumbersNoNewline(l: int, w: int, b: int)
    ensures '\n' !in IntToString(l) + " " + IntToString(w) + " " + IntToString(b)
  {
    var x, y, z := IntToString(l), IntToString(w), IntToString(b);
    assert '\n' !in x + " " + y;
  }

  /** Three numbers joined by single spaces hold exactly two spaces. */
  lemma ThreeNumbers(l: int, w: int, b: int)
    ensures Count(' ', IntToString(l) + " " + IntToString(w) + " " + IntToString(b)) == 2
  {
    var x, y, z := IntToString(l), IntToString(w), IntToString(b);
    assert ' ' !in x && ' ' !in y && ' ' !in z;
    CountZero(' ', x);
    CountZero(' ', y);
    CountZero(' ', z);
    CountAppend(' ', x + " " + y + " ", z);
    CountAppend(' ', x + " " + y, " ");
    CountAppend(' ', x + " ", y);
    CountAppend(' ', x, " ");
  }

  /** When no file name holds a newline, the full listing has one line per row
      and the total line last, which carries the column sums. */
  lemma FullOutputLines(rows: seq<FileRow>)
    requires forall i :: 0 <= i < |rows| ==> '\n' !in rows[i].name
    ensures var lines := EachLine(PutsAll(FullRowTexts(rows) + [FullTotalText(rows)]));
      |lines| == |rows| + 1 &&
      (forall i :: 0 <= i < |rows| ==> lines[i] == FullRowText(rows[i]) + "\n") &&
      lines[|rows|] == FullTotalText(rows) + "\n"
  {
    var texts := FullRowTexts(rows);
    forall i | 0 <= i < |texts| ensures '\n' !in texts[i] {
      FullRowTextNoNewline(rows[i]);
    }
    NumbersNoNewline(SumLines(rows), SumRowWords(rows), SumBytes(rows));
    PutsAllReadBackSnoc(texts, FullTotalText(rows));
  }

  lemma FullRowTextNoNewline(r: FileRow)
    requires '\n' !in r.name
    ensures '\n' !in FullRowText(r)
  {
    NumbersNoNewline(r.lines, r.words, r.bytes);
  }

  /** The same for the -l listing. */
  lemma LineOutputLines(rows: seq<FileRow>)
    requires forall i :: 0 <= i < |rows| ==> '\n' !in rows[i].name
    ensures var lines := EachLine(PutsAll(LineRowTexts(rows) + [LineTotalText(rows)]));
      |lines| == |rows| + 1 &&
      (forall i :: 0 <= i < |rows| ==> lines[i] == LineRowText(rows[i]) + "\n") &&
      lines[|rows|] == LineTotalText(rows) + "\n"
  {
    var texts := LineRowTexts(rows);
    forall i | 0 <= i < |texts| ensures '\n' !in texts[i] {
      assert texts[i] == IntToString(rows[i].lines) + " " + rows[i].name;
    }
    PutsAllReadBackSnoc(texts, LineTotalText(rows));
  }
}
