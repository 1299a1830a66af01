/** Text helpers shared by the three tools: Ruby's Integer#to_s, the effect of
    `puts`, and the line splitting of IO#each_line / IO#readlines. */
module Text {

  /** The digit character for a digit value below ten. */
  function DigitChar(d: nat): (c: char)
    requires d < 10
    ensures '0' <= c <= '9'
    ensures c == '0' <==> d == 0
  {
    (('0' as int) + d) as char
  }

  /** The value of a digit character. */
  function DigitValue(c: char): nat
  {
    if '0' <= c <= '9' then (c as int) - ('0' as int) else 0
  }

  /** Integer#to_s(base) on a non-negative integer: the digits, most significant
      first, with no leading zero (zero itself is "0"). */
  function Digits(n: nat, base: nat): (s: string)
    requires base == 2 || base == 10
    ensures |s| >= 1
    ensures forall i :: 0 <= i < |s| ==> '0' <= s[i] <= '9'
    ensures s[0] != '0' || n == 0
    decreases n
  {
    Division(n, base);
    (if n < base then [] else Digits(n / base, base)) + [DigitChar(n % base)]
  }

  /** What Digits needs of n / base and n % base. */
  lemma Division(n: nat, base: nat)
    requires base == 2 || base == 10
    ensures n % base < base
    ensures n >= base ==> 1 <= n / base < n
  {
    if base == 2 {
      assert n == 2 * (n / 2) + n % 2;
    } else {
      assert n == 10 * (n / 10) + n % 10;
    }
  }

  /** The number a string of digits denotes in a base. */
  function ValueOf(s: string, base: nat): nat
  {
    if s == [] then 0 else ValueOf(s[..|s| - 1], base) * base + DigitValue(s[|s| - 1])
  }

  /** Reading back the decimal digits of a number gives the number. */
  lemma {:induction false} DecimalRoundTrip(n: nat)
    ensures ValueOf(Digits(n, 10), 10) == n
    decreases n
  {
    var p: string := if n < 10 then [] else Digits(n / 10, 10);
    var d := n % 10;
    assert ValueOf(Digits(n, 10), 10) == ValueOf(p, 10) * 10 + d by {
      DigitRoundTrip(d);
      ValueOfSnoc(p, DigitChar(d), 10);
      assert Digits(n, 10) == p + [DigitChar(d)];
    }
    if n >= 10 {
      DecimalRoundTrip(n / 10);
    }
  }

  lemma DigitRoundTrip(d: nat)
    requires d < 10
    ensures DigitValue(DigitChar(d)) == d
  {
  }

  lemma ValueOfSnoc(p: string, c: char, base: nat)
    requires '0' <= c <= '9'
    ensures ValueOf(p + [c], base) == ValueOf(p, base) * base + DigitValue(c)
  {
    assert (p + [c])[..|p|] == p;
  }

  /** Integer#to_s: decimal, with a leading '-' for negative numbers. */
  function IntToString(i: int): (s: string)
    ensures |s| >= 1
    ensures s[0] == '-' <==> i < 0
    ensures s[0] == '-' || '0' <= s[0] <= '9'
    ensures forall k :: 1 <= k < |s| ==> '0' <= s[k] <= '9'
    ensures '\n' !in s
  {
    if i < 0 then "-" + Digits(-i, 10) else Digits(i, 10)
  }

  /** The absolute value of an integer. */
  function Magnitude(i: int): (n: nat)
    ensures n == i || n == -i
  {
    if i < 0 then -i else i
  }

  /** The digits Integer#to_s writes after the sign denote the magnitude of the
      number, so the text determines the number. */
  lemma IntToStringValue(i: int)
    ensures ValueOf(IntToString(i)[(if i < 0 then 1 else 0)..], 10) == Magnitude(i)
  {
    SignAndDigits(i);
    DecimalRoundTrip(Magnitude(i));
  }

  /** The digits after the sign are those of the magnitude. */
  lemma SignAndDigits(i: int)
    ensures IntToString(i)[(if i < 0 then 1 else 0)..] == Digits(Magnitude(i), 10)
  {
    if i < 0 {
      assert ("-" + Digits(-i, 10))[1..] == Digits(-i, 10);
    }
  }

  /** Different integers print differently. */
  lemma IntToStringInjective(i: int, j: int)
    ensures IntToString(i) == IntToString(j) ==> i == j
  {
    IntToStringValue(i);
    IntToStringValue(j);
  }

  /** The text `puts s` writes: s followed by a newline unless s already ends with one. */
  function Puts(s: string): (r: string)
    ensures |r| == if s != [] && s[|s| - 1] == '\n' then |s| else |s| + 1
    ensures r[|r| - 1] == '\n'
  {
    if s != [] && s[|s| - 1] == '\n' then s else s + "\n"
  }

  /** `puts s` writes s itself and then at most a newline: the newline is added exactly
      when s does not already end with one, so a second `puts` of its text adds nothing. */
  lemma PutsShape(s: string)
    ensures Puts(s) == s || Puts(s) == s + "\n"
    ensures |Puts(s)| >= |s| && Puts(s)[..|s|] == s
    ensures Puts(s) == s <==> s != [] && s[|s| - 1] == '\n'
    ensures Puts(Puts(s)) == Puts(s)
  {
    if !(s != [] && s[|s| - 1] == '\n') {
      assert Puts(s)[..|s|] == s;
    }
  }

  /** Array#map: f applied to each element, in order. */
  function Map<A, B>(xs: seq<A>, f: A -> B): (r: seq<B>)
    ensures |r| == |xs|
    ensures forall i :: 0 <= i < |xs| ==> r[i] == f(xs[i])
  {
    seq(|xs|, i requires 0 <= i < |xs| => f(xs[i]))
  }

  /** Mapping one more element appends its image. */
  lemma MapSnoc<A, B>(xs: seq<A>, i: nat, f: A -> B)
    requires i < |xs|
    ensures Map(xs[..i + 1], f) == Map(xs[..i], f) + [f(xs[i])]
  {
    assert forall j :: 0 <= j < i ==> xs[..i + 1][j] == xs[..i][j];
  }

  /** One more `puts` call appends its text. */
  lemma PutsAllAppendOne(init: seq<string>, last: string)
    ensures PutsAll(init + [last]) == PutsAll(init) + Puts(last)
  {
    assert (init + [last])[..|init|] == init;
  }

  /** A bare `puts` writes a newline. */
  lemma PutsEmpty()
    ensures Puts("") == "\n"
  {
  }

  lemma AppendNothing(s: string)
    ensures s + "" == s
  {
  }

  /** The text written by one `puts` call per element, in order. */
  function PutsAll(lines: seq<string>): (r: string)
    ensures r == [] <==> lines == []
    ensures r != [] ==> r[|r| - 1] == '\n'
  {
    if lines == [] then "" else PutsAll(lines[..|lines| - 1]) + Puts(lines[|lines| - 1])
  }

  /** One more `puts` call appends its text. */
  lemma PutsAllSnoc(init: seq<string>, lines: seq<string>, last: string)
    requires |lines| == |init| + 1
    requires lines[..|init|] == init && lines[|init|] == last
    ensures PutsAll(lines) == PutsAll(init) + Puts(last)
  {
  }

  /** How many times a character occurs in a string. */
  function Count(c: char, s: string): (n: nat)
    ensures n <= |s|
  {
    if s == [] then 0 else (if s[0] == c then 1 else 0) + Count(c, s[1..])
  }

  /** A character that does not occur is counted zero times, and only then. */
  lemma {:induction false} CountZero(c: char, s: string)
    ensures Count(c, s) == 0 <==> c !in s
    decreases |s|
  {
    if s != [] {
      CountZero(c, s[1..]);
      assert s == [s[0]] + s[1..];
    }
  }

  lemma {:induction false} CountAppend(c: char, a: string, b: string)
    ensures Count(c, a + b) == Count(c, a) + Count(c, b)
  {
    if a == [] {
      assert a + b == b;
    } else {
      assert (a + b)[1..] == a[1..] + b;
      CountAppend(c, a[1..], b);
    }
  }

  /** The length of the first line of a non-empty text: up to and including the
      first newline, or the whole text when there is none. */
  function FirstLineLength(s: string): (k: nat)
    requires s != []
    ensures 1 <= k <= |s|
    ensures '\n' !in s[..k - 1]
    ensures s[k - 1] == '\n' || k == |s|
  {
    if s[0] == '\n' || |s| == 1 then 1
    else
      var k := 1 + FirstLineLength(s[1..]);
      assert s[..k - 1] == [s[0]] + s[1..][..k - 2];
      k
  }

  /** IO#each_line and IO#readlines with the default separator: the lines of a
      text, each keeping its newline; the last one may lack it; no empty line. */
  function EachLine(s: string): (lines: seq<string>)
    ensures forall i :: 0 <= i < |lines| ==> lines[i] != []
    decreases |s|
  {
    if s == [] then [] else
    var k := FirstLineLength(s);
    [s[..k]] + EachLine(s[k..])
  }

  /** The concatenation of a sequence of strings. */
  function Concat(parts: seq<string>): string
  {
    if parts == [] then "" else parts[0] + Concat(parts[1..])
  }

  /** Splitting into lines loses nothing: joining the lines gives the text back. */
  lemma {:induction false} EachLineRoundTrip(s: string)
    ensures Concat(EachLine(s)) == s
    decreases |s|
  {
    if s != [] {
      EachLineRoundTrip(s[FirstLineLength(s)..]);
      RoundTripStep(s);
    }
  }

  lemma RoundTripStep(s: string)
    requires s != []
    ensures Concat(EachLine(s[FirstLineLength(s)..])) == s[FirstLineLength(s)..] ==> Concat(EachLine(s)) == s
  {
    var k := FirstLineLength(s);
    var rest := EachLine(s[k..]);
    if Concat(rest) == s[k..] {
      assert EachLine(s) == [s[..k]] + rest;
      ConcatCons(s[..k], rest);
      TakeDrop(s, k);
    }
  }

  lemma TakeDrop<T>(s: seq<T>, k: nat)
    requires k <= |s|
    ensures s[..k] + s[k..] == s
  {
  }

  lemma ConcatCons(h: string, rest: seq<string>)
    ensures Concat([h] + rest) == h + Concat(rest)
  {
    assert ([h] + rest)[1..] == rest;
  }

  /** Every line holds exactly one newline, as its last character, except that the
      last line may hold none. */
  lemma {:induction false} EachLineShape(s: string)
    ensures var lines := EachLine(s);
      forall i :: 0 <= i < |lines| ==>
        '\n' !in lines[i][..|lines[i]| - 1] &&
        (i < |lines| - 1 ==> lines[i][|lines[i]| - 1] == '\n')
    decreases |s|
  {
    if s != [] {
      var k := FirstLineLength(s);
      EachLineShape(s[k..]);
      var lines := EachLine(s);
      assert lines == [s[..k]] + EachLine(s[k..]);
      forall i | 0 <= i < |lines|
        ensures '\n' !in lines[i][..|lines[i]| - 1]
        ensures i < |lines| - 1 ==> lines[i][|lines[i]| - 1] == '\n'
      {
        if i == 0 {
          assert lines[0][..k - 1] == s[..k - 1];
          if i < |lines| - 1 {
            assert k < |s|;
          }
        } else {
          assert lines[i] == EachLine(s[k..])[i - 1];
        }
      }
    }
  }

  /** The last line ends with a newline exactly when the text does. */
  lemma {:induction false} EachLineLast(s: string)
    requires s != []
    ensures var lines := EachLine(s);
      lines != [] && (lines[|lines| - 1][|lines[|lines| - 1]| - 1] == '\n' <==> s[|s| - 1] == '\n')
    decreases |s|
  {
    var k := FirstLineLength(s);
    var lines := EachLine(s);
    assert lines == [s[..k]] + EachLine(s[k..]);
    if k == |s| {
      assert s[..k] == s && s[k..] == [];
    } else {
      EachLineLast(s[k..]);
      var rest := EachLine(s[k..]);
      assert lines[|lines| - 1] == rest[|rest| - 1];
      assert s[k..][|s[k..]| - 1] == s[|s| - 1];
    }
  }

  /** The number of lines each_line yields: one per newline, plus one for an
      unterminated last line. */
  lemma {:induction false} EachLineCount(s: string)
    ensures |EachLine(s)| == Count('\n', s) + (if s != [] && s[|s| - 1] != '\n' then 1 else 0)
    decreases |s|
  {
    if s != [] {
      var k := FirstLineLength(s);
      EachLineCount(s[k..]);
      EachLineCountStep(s, k);
    }
  }

  /** The step of EachLineCount: the first line and its newline, if any, plus the
      lines of the rest. */
  lemma EachLineCountStep(s: string, k: nat)
    requires s != [] && k == FirstLineLength(s)
    requires |EachLine(s[k..])| ==
      Count('\n', s[k..]) + (if s[k..] != [] && s[|s| - 1] != '\n' then 1 else 0)
    ensures |EachLine(s)| == Count('\n', s) + (if s[|s| - 1] != '\n' then 1 else 0)
  {
    EachLineUnfold(s);
    CountSplit('\n', s, k);
    FirstLineNewlines(s, k);
    FirstLineEnd(s, k);
  }

  lemma EachLineUnfold(s: string)
    requires s != []
    ensures |EachLine(s)| == 1 + |EachLine(s[FirstLineLength(s)..])|
  {
  }

  lemma CountSplit(c: char, s: string, k: nat)
    requires k <= |s|
    ensures Count(c, s) == Count(c, s[..k]) + Count(c, s[k..])
  {
    CountAppend(c, s[..k], s[k..]);
    assert s[..k] + s[k..] == s;
  }

  /** Either the first line is the whole text or it ends with a newline. */
  lemma FirstLineEnd(s: string, k: nat)
    requires s != [] && k == FirstLineLength(s)
    ensures s[k..] == [] <==> k == |s|
    ensures k < |s| ==> s[k - 1] == '\n'
    ensures k == |s| ==> s[k - 1] == s[|s| - 1]
  {
  }

  /** The first line holds one newline when it ends with one, and none otherwise. */
  lemma FirstLineNewlines(s: string, k: nat)
    requires s != [] && k == FirstLineLength(s)
    ensures Count('\n', s[..k]) == if s[k - 1] == '\n' then 1 else 0
  {
    assert s[..k] == s[..k - 1] + [s[k - 1]];
    CountAppend('\n', s[..k - 1], [s[k - 1]]);
    CountZero('\n', s[..k - 1]);
    assert [s[k - 1]][1..] == [];
  }

  /** The lines `puts` writes for each element, each with its newline. */
  function PutsEach(lines: seq<string>): (r: seq<string>)
    ensures |r| == |lines|
  {
    if lines == [] then [] else PutsEach(lines[..|lines| - 1]) + [Puts(lines[|lines| - 1])]
  }

  /** Each line `puts` writes for a newline-free argument is the argument and a newline. */
  lemma {:induction false} PutsEachNewline(lines: seq<string>)
    requires forall i :: 0 <= i < |lines| ==> '\n' !in lines[i]
    ensures forall i :: 0 <= i < |lines| ==> PutsEach(lines)[i] == lines[i] + "\n"
    decreases |lines|
  {
    if lines != [] {
      PutsEachNewline(lines[..|lines| - 1]);
    }
  }

  /** Text written by `puts` calls whose arguments hold no newline has one line
      per call: the argument followed by a newline. */
  lemma PutsAllReadBack(lines: seq<string>)
    requires forall i :: 0 <= i < |lines| ==> '\n' !in lines[i]
    ensures |EachLine(PutsAll(lines))| == |lines|
    ensures forall i :: 0 <= i < |lines| ==> EachLine(PutsAll(lines))[i] == lines[i] + "\n"
  {
    PutsAllLines(lines);
    PutsEachNewline(lines);
  }

  /** Two `puts` calls of newline-free lines read back as those two lines. */
  lemma PutsTwoLines(a: string, b: string)
    requires '\n' !in a && '\n' !in b
    ensures EachLine(PutsAll([a, b])) == [a + "\n", b + "\n"]
  {
    var s := a + "\n";
    PutsAllPair(a, b);
    EachLineOfLine(a);
    PutsAppendLine(s, b);
  }

  lemma PutsAllPair(a: string, b: string)
    requires '\n' !in a && '\n' !in b
    ensures PutsAll([a, b]) == a + "\n" + b + "\n"
  {
    PutsAllSnoc([], [a], a);
    PutsAllSnoc([a], [a, b], b);
    assert PutsAll([a]) == a + "\n";
  }

  /** The same for a listing followed by one last line. */
  lemma PutsAllReadBackSnoc(init: seq<string>, last: string)
    requires forall i :: 0 <= i < |init| ==> '\n' !in init[i]
    requires '\n' !in last
    ensures |EachLine(PutsAll(init + [last]))| == |init| + 1
    ensures forall i :: 0 <= i < |init| ==> EachLine(PutsAll(init + [last]))[i] == init[i] + "\n"
    ensures EachLine(PutsAll(init + [last]))[|init|] == last + "\n"
  {
    var texts := init + [last];
    assert forall i :: 0 <= i < |texts| ==> texts[i] == if i < |init| then init[i] else last;
    PutsAllReadBack(texts);
  }

  /** A text written by `puts` calls whose arguments hold no newline reads back as
      exactly those lines, one per call, in order. */
  lemma {:induction false} PutsAllLines(lines: seq<string>)
    requires forall i :: 0 <= i < |lines| ==> '\n' !in lines[i]
    ensures EachLine(PutsAll(lines)) == PutsEach(lines)
    decreases |lines|
  {
    if lines != [] {
      var init := lines[..|lines| - 1];
      var last := lines[|lines| - 1];
      PutsAllLines(init);
      assert Puts(last) == last + "\n";
      PutsAppendLine(PutsAll(init), last);
      assert PutsAll(lines) == PutsAll(init) + last + "\n";
    }
  }

  /** Appending one newline-free line (and its newline) to a text whose lines are
      all terminated appends one line. */
  lemma PutsAppendLine(s: string, line: string)
    requires s == [] || s[|s| - 1] == '\n'
    requires '\n' !in line
    ensures EachLine(s + line + "\n") == EachLine(s) + [line + "\n"]
  {
    EachLineOfLine(line);
    EachLineAppend(s, line + "\n");
    AppendAssociative(s, line, "\n");
  }

  /** A newline-free line and its newline read back as one line. */
  lemma EachLineOfLine(line: string)
    requires '\n' !in line
    ensures EachLine(line + "\n") == [line + "\n"]
  {
    var t := line + "\n";
    assert t[..|line|] == line;
    FirstLineIsFirstNewline(t, |t|);
    assert t[..|t|] == t && t[|t|..] == [];
  }

  /** Each_line on a text whose last line is terminated, followed by more text,
      yields the lines of the first part and then those of the second. */
  lemma {:induction false} EachLineAppend(s: string, u: string)
    requires s == [] || s[|s| - 1] == '\n'
    ensures EachLine(s + u) == EachLine(s) + EachLine(u)
    decreases |s|
  {
    if s == [] {
      assert s + u == u;
    } else {
      var k := FirstLineLength(s);
      FirstLineOfAppend(s, u);
      EachLineAppend(s[k..], u);
      var head, rest := [s[..k]], EachLine(s[k..]);
      assert EachLine(s) == head + rest;
      assert EachLine(s + u) == head + (rest + EachLine(u));
      AppendAssociative(head, rest, EachLine(u));
    }
  }

  lemma AppendAssociative<T>(a: seq<T>, b: seq<T>, c: seq<T>)
    ensures (a + b) + c == a + (b + c)
  {
  }

  /** Text appended after a terminated line does not change where the first line ends. */
  lemma FirstLineOfAppend(s: string, u: string)
    requires s != [] && s[|s| - 1] == '\n'
    ensures FirstLineLength(s + u) == FirstLineLength(s)
    ensures (s + u)[..FirstLineLength(s)] == s[..FirstLineLength(s)]
    ensures (s + u)[FirstLineLength(s)..] == s[FirstLineLength(s)..] + u
  {
    var k := FirstLineLength(s);
    var t := s + u;
    assert s[k - 1] == '\n';
    assert t[..k - 1] == s[..k - 1] && t[k - 1] == s[k - 1];
    FirstLineIsFirstNewline(t, k);
    assert t[..k] == s[..k];
    assert t[k..] == s[k..] + u;
  }

  /** The first line ends at the first newline. */
  lemma {:induction false} FirstLineIsFirstNewline(s: string, k: nat)
    requires 1 <= k <= |s|
    requires s[k - 1] == '\n'
    requires '\n' !in s[..k - 1]
    ensures FirstLineLength(s) == k
    decreases k
  {
    if s[0] != '\n' {
      assert s[0] == s[..k - 1][0];
      assert s[1..][k - 2] == s[k - 1];
      assert s[1..][..k - 2] == s[..k - 1][1..];
      FirstLineIsFirstNewline(s[1..], k - 1);
    }
  }
}
