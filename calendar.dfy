/** The month calendar: a header of two lines, blank cells up to the weekday of
    the 1st, then one three-character cell per day with a line break after each
    Saturday, and a final newline. The weekday of the 1st (0 = Sunday … 6 =
    Saturday) and the number of days in the month are parameters: calendar.rb
    reads them from Ruby's Date. Day d then falls on weekday (w + d - 1) mod 7. */
module Calendar {
  import opened Text

  // ---------------------------------------------------------------------------
  // Header (print_header)

  /** The first header line: the month and the year, indented by six spaces. */
  function MonthLine(year: int, month: int): (line: string)
    ensures |line| >= 7 && line[..6] == "      "
    ensures line[|line| - 1] == '年'
  {
    "      " + IntToString(month) + "月 " + IntToString(year) + "年"
  }

  /** The second header line: the weekday names from Sunday to Saturday. */
  const WeekdayLine: string := " 日 月 火 水 木 金 土"

  /** print_header: two `puts` calls. */
  method PrintHeader(year: int, month: int) returns (out: string)
    ensures out == PutsAll([MonthLine(year, month), WeekdayLine])
    ensures EachLine(out) == [MonthLine(year, month) + "\n", WeekdayLine + "\n"]
  {
    var first := MonthLine(year, month);
    out := Puts(first);
    out := out + Puts(WeekdayLine);
    assert Puts(first) == PutsAll([first]) by {
      assert [first][..0] == [];
    }
    PutsAllSnoc([first], [first, WeekdayLine], WeekdayLine);
    HeaderLines(year, month);
  }

  /** The header reads back as its two lines. */
  lemma MonthLineNoNewline(year: int, month: int)
    ensures '\n' !in MonthLine(year, month)
  {
    var m, y := IntToString(month), IntToString(year);
    assert MonthLine(year, month) == "      " + m + "月 " + y + "年";
    assert '\n' !in m && '\n' !in y;
  }

  lemma HeaderLines(year: int, month: int)
    ensures EachLine(PutsAll([MonthLine(year, month), WeekdayLine])) ==
      [MonthLine(year, month) + "\n", WeekdayLine + "\n"]
  {
    MonthLineNoNewline(year, month);
    assert '\n' !in WeekdayLine;
    PutsTwoLines(MonthLine(year, month), WeekdayLine);
  }

  // ---------------------------------------------------------------------------
  // Leading blanks (print_space)

  /** Blank cells for the weekdays before the 1st: three spaces each. */
  function Blank(cells: nat): (r: string)
    ensures |r| == 3 * cells
    ensures forall i :: 0 <= i < |r| ==> r[i] == ' '
  {
    seq(3 * cells, _ => ' ')
  }

  /** print_space: nothing when the 1st is a Sunday, otherwise one blank cell for
      each weekday before it. */
  method PrintSpace(firstWday: nat) returns (out: string)
    requires firstWday <= 6
    ensures out == Blank(firstWday)
  {
    out := "";
    if firstWday == 0 {
      return;
    }
    var k := 0;
    while k <= firstWday - 1
      invariant 0 <= k <= firstWday
      invariant out == Blank(k)
    {
      out := out + "   ";
      k := k + 1;
    }
  }

  // ---------------------------------------------------------------------------
  // Day cells (space, print_day)

  /** space: the padding before a day number, two spaces below ten, one otherwise. */
  function Space(day: int): (r: string)
    ensures |r| == (if day < 10 then 2 else 1)
  {
    if day < 10 then "  " else " "
  }

  /** The text printed for one day: its padding and its number. */
  function Cell(day: int): (cell: string)
    ensures |cell| >= 3
  {
    Space(day) + IntToString(day)
  }

  /** Numbers from 1 to 99 take one or two digits. */
  lemma DigitCount(day: nat)
    requires 1 <= day <= 99
    ensures |IntToString(day)| == if day < 10 then 1 else 2
  {
    if day >= 10 {
      assert Digits(day, 10) == Digits(day / 10, 10) + [DigitChar(day % 10)];
      assert Digits(day / 10, 10) == [DigitChar(day / 10)];
    }
  }

  /** A cell of a day from 1 to 99 is three characters on one line. */
  lemma CellWidth(day: nat)
    requires 1 <= day <= 99
    ensures |Cell(day)| == 3 && '\n' !in Cell(day)
  {
    DigitCount(day);
  }

  /** Every cell of a day from 1 to 99 is three characters wide: spaces, then the
      day's number; it holds no newline. */
  lemma CellShape(day: nat)
    requires 1 <= day <= 99
    ensures |Cell(day)| == 3
    ensures '\n' !in Cell(day)
    ensures Cell(day)[3 - |IntToString(day)|..] == IntToString(day)
    ensures forall i :: 0 <= i < 3 - |IntToString(day)| ==> Cell(day)[i] == ' '
  {
    DigitCount(day);
  }

  /** Day d falls on a Saturday: its weekday (w + d - 1) mod 7 is 6. */
  predicate Saturday(firstWday: nat, day: nat): (b: bool)
    ensures day >= 1 ==> (b <==> (firstWday + day - 1) % 7 == 6)
  {
    (firstWday + day) % 7 == 0
  }

  /** Moving one day on: the weekday advances by one, wrapping after Saturday,
      and the count of completed weeks grows by one exactly at a wrap. */
  lemma NextDay(x: nat)
    ensures (x + 1) % 7 == if x % 7 == 6 then 0 else x % 7 + 1
    ensures (x + 1) / 7 == x / 7 + (if (x + 1) % 7 == 0 then 1 else 0)
  {
    var q, r := x / 7, x % 7;
    assert x == 7 * q + r;
    if r == 6 {
      assert x + 1 == 7 * (q + 1);
    } else {
      assert x + 1 == 7 * q + (r + 1);
    }
  }

  /** What print_day writes for days 1 to n: each cell, with a line break after
      the Saturdays. */
  function DaysText(firstWday: nat, n: nat): (text: string)
    ensures |text| >= 3 * n
  {
    if n == 0 then ""
    else DaysText(firstWday, n - 1) + (if Saturday(firstWday, n) then Puts(Cell(n)) else Cell(n))
  }

  /** print_day: for each day of the month, `puts` its cell on a Saturday and
      `print` it otherwise. */
  method PrintDay(firstWday: nat, lastDay: nat) returns (out: string)
    requires firstWday <= 6
    ensures out == DaysText(firstWday, lastDay)
  {
    out := "";
    for day := 1 to lastDay + 1
      invariant out == DaysText(firstWday, day - 1)
    {
      var cell := Space(day) + IntToString(day);
      if (firstWday + day) % 7 == 0 {
        out := out + Puts(cell);
      } else {
        out := out + cell;
      }
    }
  }

  // ---------------------------------------------------------------------------
  // The whole calendar

  /** The text the script writes: header, blanks, days, and a last newline
      unless the last day was a Saturday (whose `puts` already ended the line). */
  function CalendarText(year: int, month: int, firstWday: nat, lastDay: nat): (text: string)
    ensures |text| > 3 * (firstWday + lastDay)
  {
    PutsAll([MonthLine(year, month), WeekdayLine]) + Blank(firstWday) + DaysText(firstWday, lastDay) +
    (if Saturday(firstWday, lastDay) then "" else "\n")
  }

  /** The script's top level: print_header, print_space, print_day, and the final
      `puts` unless the last day of the month is a Saturday. */
  method PrintCalendar(year: int, month: int, firstWday: nat, lastDay: nat) returns (out: string)
    requires firstWday <= 6
    ensures out == CalendarText(year, month, firstWday, lastDay)
  {
    var header := PrintHeader(year, month);
    var blanks := PrintSpace(firstWday);
    var days := PrintDay(firstWday, lastDay);
    out := header + blanks + days;
    if (firstWday + lastDay) % 7 != 0 {
      out := out + Puts("");
      PutsEmpty();
    } else {
      AppendNothing(out);
    }
  }

  // ---------------------------------------------------------------------------
  // Layout properties

  /** The length of the last, unfinished line of a text. */
  function LastLineLength(s: string): (n: nat)
    ensures n <= |s|
  {
    if s == [] || s[|s| - 1] == '\n' then 0 else LastLineLength(s[..|s| - 1]) + 1
  }

  lemma {:induction false} LastLineAppend(s: string, t: string)
    requires '\n' !in t
    ensures LastLineLength(s + t) == LastLineLength(s) + |t|
    decreases |t|
  {
    if t != [] {
      var u := t[..|t| - 1];
      assert '\n' !in u by {
        assert forall i :: 0 <= i < |u| ==> u[i] == t[i];
      }
      LastLineAppend(s, u);
      assert (s + t)[..|s + t| - 1] == s + u;
      assert (s + t)[|s + t| - 1] == t[|t| - 1];
    } else {
      assert s + t == s;
    }
  }

  lemma {:induction false} BlankHasNoNewline(cells: nat)
    ensures '\n' !in Blank(cells)
    ensures LastLineLength(Blank(cells)) == 3 * cells
  {
    assert Blank(cells) == [] + Blank(cells);
    LastLineAppend([], Blank(cells));
  }

  /** The column, 0 to 6, where the cell after the blanks and k days goes. */
  function Column(firstWday: nat, k: nat): nat
  {
    (firstWday + k) % 7
  }

  /** After the blanks and k days the current line holds (w + k) mod 7 cells: day
      d sits in column (w + d - 1) mod 7, so no line holds more than seven. */
  lemma DayColumn(firstWday: nat, k: nat)
    requires firstWday <= 6 && k <= 99
    ensures LastLineLength(Blank(firstWday) + DaysText(firstWday, k)) == 3 * ((firstWday + k) % 7)
  {
    BlankHasNoNewline(firstWday);
    assert Column(firstWday, 0) == firstWday;
    DayColumnAfter(Blank(firstWday), firstWday, k);
  }

  lemma {:induction false} DayColumnAfter(b: string, firstWday: nat, k: nat)
    requires firstWday <= 6 && k <= 99
    requires LastLineLength(b) == 3 * firstWday
    ensures LastLineLength(b + DaysText(firstWday, k)) == 3 * Column(firstWday, k)
    decreases k
  {
    if k == 0 {
      NoDays(b, firstWday);
    } else {
      DayColumnAfter(b, firstWday, k - 1);
      DayColumnStep(b, firstWday, k);
    }
  }

  lemma NoDays(b: string, firstWday: nat)
    requires firstWday <= 6
    ensures b + DaysText(firstWday, 0) == b
    ensures Column(firstWday, 0) == firstWday
  {
    assert DaysText(firstWday, 0) == [];
    assert b + [] == b;
  }

  lemma DayColumnStep(b: string, firstWday: nat, k: nat)
    requires 1 <= k <= 99
    ensures LastLineLength(b + DaysText(firstWday, k - 1)) == 3 * Column(firstWday, k - 1) ==>
      LastLineLength(b + DaysText(firstWday, k)) == 3 * Column(firstWday, k)
  {
    var prev := b + DaysText(firstWday, k - 1);
    if LastLineLength(prev) == 3 * Column(firstWday, k - 1) {
      DaysTextStep(b, firstWday, k);
      CellWidth(k);
      ColumnStep(prev, Cell(k), firstWday, k);
    }
  }

  /** The text of k days after a prefix: that of k - 1 days, then day k's cell
      and, on a Saturday, its line break. */
  lemma DaysTextStep(b: string, firstWday: nat, k: nat)
    requires 1 <= k <= 99
    ensures b + DaysText(firstWday, k) ==
      (b + DaysText(firstWday, k - 1)) + (Cell(k) + (if Saturday(firstWday, k) then "\n" else ""))
  {
    var cell := Cell(k);
    CellWidth(k);
    assert Puts(cell) == cell + "\n";
    assert DaysText(firstWday, k) == DaysText(firstWday, k - 1) + (cell + (if Saturday(firstWday, k) then "\n" else ""));
    AppendAssociative(b, DaysText(firstWday, k - 1), cell + (if Saturday(firstWday, k) then "\n" else ""));
  }

  /** One more cell moves the column on by one, and a line break after a
      Saturday's cell returns it to the start. */
  lemma ColumnStep(prev: string, cell: string, firstWday: nat, k: nat)
    requires k >= 1
    requires LastLineLength(prev) == 3 * Column(firstWday, k - 1)
    requires |cell| == 3 && '\n' !in cell
    ensures LastLineLength(prev + (cell + (if Saturday(firstWday, k) then "\n" else ""))) ==
      3 * Column(firstWday, k)
  {
    ColumnArith(firstWday, k);
    if Saturday(firstWday, k) {
      EndsLine(prev, cell);
    } else {
      ContinuesLine(prev, cell);
    }
  }

  /** Saturday's column is the last: the next day starts again at column 0. */
  lemma ColumnArith(firstWday: nat, k: nat)
    requires k >= 1
    ensures Saturday(firstWday, k) ==> Column(firstWday, k) == 0
    ensures !Saturday(firstWday, k) ==> Column(firstWday, k) == Column(firstWday, k - 1) + 1
  {
    NextDay(firstWday + (k - 1));
    assert firstWday + (k - 1) + 1 == firstWday + k;
  }

  lemma EndsLine(prev: string, cell: string)
    ensures LastLineLength(prev + (cell + "\n")) == 0
  {
    var t := prev + (cell + "\n");
    assert t[|t| - 1] == '\n';
  }

  lemma ContinuesLine(prev: string, cell: string)
    requires '\n' !in cell
    ensures LastLineLength(prev + (cell + "")) == LastLineLength(prev) + |cell|
  {
    assert cell + "" == cell;
    LastLineAppend(prev, cell);
  }

  /** The days hold one line break per Saturday among them: (w + n) div 7. */
  lemma {:induction false} DayNewlines(firstWday: nat, n: nat)
    requires firstWday <= 6 && n <= 99
    ensures Count('\n', DaysText(firstWday, n)) == (firstWday + n) / 7
    decreases n
  {
    if n > 0 {
      DayNewlines(firstWday, n - 1);
      NextDay(firstWday + n - 1);
      CellShape(n);
      CountZero('\n', Cell(n));
      CountAppend('\n', DaysText(firstWday, n - 1), if Saturday(firstWday, n) then Puts(Cell(n)) else Cell(n));
      if Saturday(firstWday, n) {
        CountAppend('\n', Cell(n), "\n");
      }
    }
  }

  /** The calendar has one line per week the month touches, plus the header:
      2 + ceil((w + n) / 7) lines. */
  lemma LineCount(year: int, month: int, firstWday: nat, lastDay: nat)
    requires firstWday <= 6 && 1 <= lastDay <= 99
    ensures |EachLine(CalendarText(year, month, firstWday, lastDay))| == 2 + (firstWday + lastDay + 6) / 7
  {
    var t := CalendarText(year, month, firstWday, lastDay);
    CalendarNewlines(year, month, firstWday, lastDay);
    assert t != [] && t[|t| - 1] == '\n' by {
      EndsWithOneNewline(year, month, firstWday, lastDay);
      assert t[|t| - 1] == t[|t| - 4..][3];
    }
    EachLineCount(t);
  }

  /** Two line breaks in the header, one per Saturday, and the final one unless
      the month ends on a Saturday. */
  lemma CalendarNewlines(year: int, month: int, firstWday: nat, lastDay: nat)
    requires firstWday <= 6 && 1 <= lastDay <= 99
    ensures Count('\n', CalendarText(year, month, firstWday, lastDay)) == 2 + (firstWday + lastDay + 6) / 7
  {
    var tail: string := if Saturday(firstWday, lastDay) then "" else "\n";
    HeaderNewlines(year, month);
    BlankHasNoNewline(firstWday);
    CountZero('\n', Blank(firstWday));
    DayNewlines(firstWday, lastDay);
    assert Count('\n', tail) == if Saturday(firstWday, lastDay) then 0 else 1;
    CountOfFour(PutsAll([MonthLine(year, month), WeekdayLine]), Blank(firstWday), DaysText(firstWday, lastDay), tail);
    WeeksTouched(firstWday + lastDay);
  }

  /** The header holds two line breaks. */
  lemma HeaderNewlines(year: int, month: int)
    ensures Count('\n', PutsAll([MonthLine(year, month), WeekdayLine])) == 2
  {
    var header := PutsAll([MonthLine(year, month), WeekdayLine]);
    HeaderLines(year, month);
    EachLineCount(header);
  }

  lemma CountOfFour(h: string, a: string, b: string, c: string)
    ensures Count('\n', h + a + b + c) == Count('\n', h) + Count('\n', a) + Count('\n', b) + Count('\n', c)
  {
    CountAppend('\n', h + a + b, c);
    CountAppend('\n', h + a, b);
    CountAppend('\n', h, a);
  }

  /** x days from the start of a week touch ceil(x / 7) weeks: the full weeks,
      and one more when the last is unfinished. */
  lemma WeeksTouched(x: nat)
    ensures x / 7 + (if x % 7 == 0 then 0 else 1) == (x + 6) / 7
  {
    var q, r := x / 7, x % 7;
    assert x == 7 * q + r;
    assert x + 6 == 7 * q + (r + 6);
    if r == 0 {
      assert (x + 6) / 7 == q;
    } else {
      assert x + 6 == 7 * (q + 1) + (r - 1);
    }
  }

  /** The output ends with the last day's cell and a single newline, whether or
      not that day is a Saturday. */
  lemma EndsWithOneNewline(year: int, month: int, firstWday: nat, lastDay: nat)
    requires firstWday <= 6 && 1 <= lastDay <= 99
    ensures var t := CalendarText(year, month, firstWday, lastDay);
      |t| >= 4 && t[|t| - 4..] == Cell(lastDay) + "\n"
  {
    CellWidth(lastDay);
    var header := PutsAll([MonthLine(year, month), WeekdayLine]) + Blank(firstWday);
    var sat := Saturday(firstWday, lastDay);
    DaysTextStep(header, firstWday, lastDay);
    Suffix(CalendarText(year, month, firstWday, lastDay), header + DaysText(firstWday, lastDay),
      header + DaysText(firstWday, lastDay - 1), Cell(lastDay), sat);
  }

  /** Whichever of the day's `puts` and the final one ends the line, the text
      ends with the cell and one newline. */
  lemma Suffix(t: string, u: string, prefix: string, cell: string, sat: bool)
    requires |cell| == 3
    requires t == u + (if sat then "" else "\n")
    requires u == prefix + (cell + (if sat then "\n" else ""))
    ensures |t| >= 4 && t[|t| - 4..] == cell + "\n"
  {
    assert t == prefix + (cell + "\n");
  }

  /** The output begins with the two header lines. */
  lemma StartsWithHeader(year: int, month: int, firstWday: nat, lastDay: nat)
    ensures var h := PutsAll([MonthLine(year, month), WeekdayLine]);
      var t := CalendarText(year, month, firstWday, lastDay);
      |h| <= |t| && t[..|h|] == h &&
      EachLine(h) == [MonthLine(year, month) + "\n", WeekdayLine + "\n"]
  {
    HeaderLines(year, month);
    var t := CalendarText(year, month, firstWday, lastDay);
    StartsWith(t, PutsAll([MonthLine(year, month), WeekdayLine]), Blank(firstWday), DaysText(firstWday, lastDay),
      if Saturday(firstWday, lastDay) then "" else "\n");
  }

  lemma StartsWith(t: string, h: string, a: string, b: string, c: string)
    requires t == h + a + b + c
    ensures |h| <= |t| && t[..|h|] == h
  {
    assert t == h + (a + b + c);
  }

  /** The text with its line breaks taken out: the cells as they sit side by side. */
  function Unbroken(s: string): string
  {
    if s == [] then [] else (if s[0] == '\n' then [] else [s[0]]) + Unbroken(s[1..])
  }

  /** Taking the line breaks out leaves none and removes exactly the counted ones. */
  lemma {:induction false} UnbrokenShape(s: string)
    ensures '\n' !in Unbroken(s)
    ensures |Unbroken(s)| + Count('\n', s) == |s|
    decreases |s|
  {
    if s != [] {
      UnbrokenShape(s[1..]);
    }
  }

  lemma {:induction false} UnbrokenAppend(a: string, b: string)
    ensures Unbroken(a + b) == Unbroken(a) + Unbroken(b)
    decreases |a|
  {
    if a == [] {
      assert a + b == b;
    } else {
      UnbrokenAppend(a[1..], b);
      var ab := a + b;
      assert ab[0] == a[0] && ab[1..] == a[1..] + b;
      assert Unbroken(ab) == (if a[0] == '\n' then [] else [a[0]]) + Unbroken(a[1..] + b);
      AppendAssociative((if a[0] == '\n' then [] else [a[0]]), Unbroken(a[1..]), Unbroken(b));
    }
  }

  /** A text without line breaks is left as it is. */
  lemma {:induction false} UnbrokenKeeps(s: string)
    requires '\n' !in s
    ensures Unbroken(s) == s
    decreases |s|
  {
    if s != [] {
      UnbrokenKeeps(s[1..]);
      assert [s[0]] + s[1..] == s;
    }
  }

  /** The cells of days 1 to n side by side. */
  function Cells(n: nat): string
  {
    if n == 0 then "" else Cells(n - 1) + Cell(n)
  }

  lemma {:induction false} CellsLength(n: nat)
    requires n <= 99
    ensures |Cells(n)| == 3 * n
  {
    if n > 0 {
      CellsLength(n - 1);
      CellWidth(n);
    }
  }

  /** Cell d sits at the d-th three-character slot of the cells. */
  lemma {:induction false} CellsAt(n: nat, d: nat)
    requires 1 <= d <= n <= 99
    ensures |Cells(n)| == 3 * n && Cells(n)[3 * (d - 1)..3 * d] == Cell(d)
    decreases n
  {
    CellsLength(n);
    CellsLength(n - 1);
    if d < n {
      CellsAt(n - 1, d);
      SliceBefore(Cells(n - 1), Cell(n), 3 * (d - 1), 3 * d);
    } else {
      CellWidth(n);
      SliceAfter(Cells(n - 1), Cell(n), 0, 3);
      assert Cell(n)[0..3] == Cell(n);
    }
  }

  /** A cell followed by a line break or not is just the cell once breaks are taken out. */
  lemma UnbrokenCell(cell: string, sat: bool)
    requires '\n' !in cell
    ensures Unbroken(cell + (if sat then "\n" else "")) == cell
  {
    UnbrokenKeeps(cell);
    if sat {
      UnbrokenAppend(cell, "\n");
      assert "\n"[1..] == [];
    } else {
      assert cell + "" == cell;
    }
  }

  /** Without line breaks, the days after a prefix that has none are their cells side by side. */
  lemma {:induction false} UnbrokenDays(b: string, firstWday: nat, n: nat)
    requires '\n' !in b && n <= 99
    ensures Unbroken(b + DaysText(firstWday, n)) == b + Cells(n)
    decreases n
  {
    if n == 0 {
      assert b + DaysText(firstWday, 0) == b && b + Cells(0) == b;
      UnbrokenKeeps(b);
    } else {
      UnbrokenDays(b, firstWday, n - 1);
      DaysTextStep(b, firstWday, n);
      CellWidth(n);
      var sat := Saturday(firstWday, n);
      UnbrokenAppend(b + DaysText(firstWday, n - 1), Cell(n) + (if sat then "\n" else ""));
      UnbrokenCell(Cell(n), sat);
      AppendAssociative(b, Cells(n - 1), Cell(n));
    }
  }

  /** Without line breaks, the blanks and days are the blank cells and then the cell of
      every day from 1 to n, each once and in increasing order: day d fills slot w + d - 1. */
  lemma DaysInOrder(firstWday: nat, n: nat)
    requires n <= 99
    ensures var u := Unbroken(Blank(firstWday) + DaysText(firstWday, n));
      |u| == 3 * (firstWday + n) && u[..3 * firstWday] == Blank(firstWday) &&
      forall d :: 1 <= d <= n ==> u[3 * (firstWday + d - 1)..3 * (firstWday + d)] == Cell(d)
  {
    BlankHasNoNewline(firstWday);
    SlotsAfter(Blank(firstWday), firstWday, n);
  }

  /** The same after any prefix of w cells' width without line breaks. */
  lemma {:induction false} SlotsAfter(b: string, firstWday: nat, n: nat)
    requires '\n' !in b && |b| == 3 * firstWday && n <= 99
    ensures var u := Unbroken(b + DaysText(firstWday, n));
      |u| == 3 * (firstWday + n) && u[..3 * firstWday] == b &&
      forall d :: 1 <= d <= n ==> u[3 * (firstWday + d - 1)..3 * (firstWday + d)] == Cell(d)
  {
    var u := Unbroken(b + DaysText(firstWday, n));
    assert u == b + Cells(n) by {
      UnbrokenDays(b, firstWday, n);
    }
    assert |u| == 3 * (firstWday + n) by {
      CellsLength(n);
    }
    assert u[..3 * firstWday] == b by {
      PrefixOf(b, Cells(n));
    }
    forall d | 1 <= d <= n
      ensures u[3 * (firstWday + d - 1)..3 * (firstWday + d)] == Cell(d)
    {
      SlotOfDay(b, n, d);
      assert |b| + 3 * (d - 1) == 3 * (firstWday + d - 1) && |b| + 3 * d == 3 * (firstWday + d);
    }
  }

  /** After any prefix, day d fills the d-th three-character slot of the cells. */
  lemma {:induction false} SlotOfDay(p: string, n: nat, d: nat)
    requires 1 <= d <= n <= 99
    ensures |Cells(n)| == 3 * n && (p + Cells(n))[|p| + 3 * (d - 1)..|p| + 3 * d] == Cell(d)
  {
    var c := Cells(n);
    assert |c| == 3 * n && c[3 * (d - 1)..3 * d] == Cell(d) by {
      CellsAt(n, d);
    }
    assert (p + c)[|p| + 3 * (d - 1)..|p| + 3 * d] == c[3 * (d - 1)..3 * d] by {
      SliceAfter(p, c, 3 * (d - 1), 3 * d);
    }
  }

  lemma PrefixOf(p: string, q: string)
    ensures (p + q)[..|p|] == p
  {
  }

  lemma SliceBefore(p: string, q: string, i: nat, j: nat)
    requires i <= j <= |p|
    ensures (p + q)[i..j] == p[i..j]
  {
  }

  lemma SliceAfter(p: string, q: string, i: nat, j: nat)
    requires i <= j <= |q|
    ensures (p + q)[|p| + i..|p| + j] == q[i..j]
  {
  }
}
