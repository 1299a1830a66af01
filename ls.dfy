/** The listing pipeline of the `ls` clone: hidden-entry filter, row projection
    (name only, or the eight long-format fields), permission decoding from the
    binary digits of the mode, the three ordering branches, and the printing of
    one line per row. Directory enumeration and File::Stat are replaced by an
    input sequence of entries. */
module Ls {
  import opened Text
  import opened Ordering

  /** The values File::Stat#ftype returns. */
  datatype FileType = File | Directory | CharacterSpecial | BlockSpecial | Fifo | Link | Socket | Unknown

  /** The string File::Stat#ftype returns for each type. */
  function TypeName(t: FileType): (s: string)
    ensures |s| >= 1
  {
    match t
    case File => "file"
    case Directory => "directory"
    case CharacterSpecial => "characterSpecial"
    case BlockSpecial => "blockSpecial"
    case Fifo => "fifo"
    case Link => "link"
    case Socket => "socket"
    case Unknown => "unknown"
  }

  /** The part of a File::Stat the listing reads; mtime is an opaque timestamp. */
  datatype Stat = Stat(ftype: FileType, mode: nat, nlink: nat, uid: nat, gid: nat, size: nat, mtime: int)

  /** One directory entry: its name and its stat record. */
  datatype Entry = Entry(name: string, stat: Stat)

  /** A cell of a listing row: a string, or an integer (link count, ids, size, mtime). */
  datatype Field = Str(s: string) | Num(n: int)

  /** A listing row: [name] in short mode, eight fields in long mode. */
  type Row = seq<Field>

  // ---------------------------------------------------------------------------
  // Hidden filter (parse_all_option, not_hidden_files)

  /** The regular expression /^\./ matches: some line of the name starts with a
      period (Ruby's `^` anchors at the start of every line). */
  predicate IsHidden(name: string): (h: bool)
    ensures name != [] && name[0] == '.' ==> h
    ensures h ==> '.' in name
  {
    exists i :: 0 <= i < |name| && name[i] == '.' && (i == 0 || name[i - 1] == '\n')
  }

  /** For a name on one line, hidden means starting with a period. */
  lemma HiddenSingleLine(name: string)
    requires '\n' !in name
    ensures IsHidden(name) <==> name != [] && name[0] == '.'
  {
    if IsHidden(name) {
      var i :| 0 <= i < |name| && name[i] == '.' && (i == 0 || name[i - 1] == '\n');
      assert i == 0;
    }
  }

  /** not_hidden_files: the entries that are not hidden, in enumeration order. */
  function NotHiddenFiles(files: seq<Entry>): (r: seq<Entry>)
    ensures |r| <= |files|
    ensures forall e :: e in r <==> e in files && !IsHidden(e.name)
  {
    if files == [] then []
    else (if IsHidden(files[0].name) then [] else [files[0]]) + NotHiddenFiles(files[1..])
  }

  /** The entries the filter drops. */
  function HiddenFiles(files: seq<Entry>): (r: seq<Entry>)
    ensures forall e :: e in r <==> e in files && IsHidden(e.name)
  {
    if files == [] then []
    else (if IsHidden(files[0].name) then [files[0]] else []) + HiddenFiles(files[1..])
  }

  /** parse_all_option: everything with the all flag, the non-hidden entries
      otherwise. (The hash ls.rb fills on the way is never returned.) */
  function ParseAllOption(files: seq<Entry>, all: bool): (r: seq<Entry>)
    ensures all ==> r == files
    ensures !all ==> r == NotHiddenFiles(files)
  {
    if all then files else NotHiddenFiles(files)
  }

  /** The filter works entry by entry, so it keeps enumeration order. */
  lemma {:induction false} NotHiddenFilesAppend(a: seq<Entry>, b: seq<Entry>)
    ensures NotHiddenFiles(a + b) == NotHiddenFiles(a) + NotHiddenFiles(b)
  {
    if a == [] {
      assert a + b == b;
    } else {
      assert (a + b)[1..] == a[1..] + b;
      NotHiddenFilesAppend(a[1..], b);
      AppendAssociative(if IsHidden(a[0].name) then [] else [a[0]], NotHiddenFiles(a[1..]), NotHiddenFiles(b));
    }
  }

  /** What the filter keeps and what it drops make up the input exactly. */
  lemma {:induction false} NotHiddenFilesPartition(files: seq<Entry>)
    ensures multiset(NotHiddenFiles(files)) + multiset(HiddenFiles(files)) == multiset(files)
  {
    if files != [] {
      var x, rest := files[0], files[1..];
      NotHiddenFilesPartition(rest);
      assert multiset(files) == multiset{x} + multiset(rest) by {
        assert files == [x] + rest;
      }
      if IsHidden(x.name) {
        assert multiset(HiddenFiles(files)) == multiset{x} + multiset(HiddenFiles(rest)) by {
          assert HiddenFiles(files) == [x] + HiddenFiles(rest);
        }
        assert NotHiddenFiles(files) == NotHiddenFiles(rest);
      } else {
        assert multiset(NotHiddenFiles(files)) == multiset{x} + multiset(NotHiddenFiles(rest)) by {
          assert NotHiddenFiles(files) == [x] + NotHiddenFiles(rest);
        }
        assert HiddenFiles(files) == HiddenFiles(rest);
      }
    }
  }

  /** A listing with no hidden entry passes the filter unchanged. */
  lemma {:induction false} NotHiddenFilesKeepsVisible(files: seq<Entry>)
    requires forall i :: 0 <= i < |files| ==> !IsHidden(files[i].name)
    ensures NotHiddenFiles(files) == files
  {
    if files != [] {
      NotHiddenFilesKeepsVisible(files[1..]);
      assert files == [files[0]] + files[1..];
    }
  }

  // ---------------------------------------------------------------------------
  // Names as printed: f[0].to_s.gsub(/^:/, '')

  /** Deletes every ':' that starts a line, as gsub(/^:/, '') does; `atLineStart`
      says whether the first character starts a line. */
  function StripLineColons(s: string, atLineStart: bool): (r: string)
    ensures |r| <= |s|
  {
    if s == [] then []
    else if atLineStart && s[0] == ':' then StripLineColons(s[1..], false)
    else [s[0]] + StripLineColons(s[1..], s[0] == '\n')
  }

  /** The name shown for an entry. */
  function DisplayName(name: string): (r: string)
    ensures |r| <= |name|
    ensures name != [] && name[0] == ':' ==> |r| < |name|
  {
    StripLineColons(name, true)
  }

  lemma {:induction false} StripNoColon(s: string, atLineStart: bool)
    requires ':' !in s
    ensures StripLineColons(s, atLineStart) == s
  {
    if s != [] {
      StripNoColon(s[1..], s[0] == '\n');
    }
  }

  lemma {:induction false} StripNoNewline(s: string)
    requires '\n' !in s
    ensures StripLineColons(s, false) == s
  {
    if s != [] {
      StripNoNewline(s[1..]);
    }
  }

  /** A name on one line is shown as is, except that a leading ':' is dropped;
      a name without ':' is shown as is. */
  lemma DisplayNameSingleLine(name: string)
    ensures ':' !in name ==> DisplayName(name) == name
    ensures '\n' !in name ==>
      DisplayName(name) == if name != [] && name[0] == ':' then name[1..] else name
  {
    if ':' !in name {
      StripNoColon(name, true);
    }
    if '\n' !in name && name != [] {
      StripNoNewline(name[1..]);
      assert name == [name[0]] + name[1..];
    }
  }

  // ---------------------------------------------------------------------------
  // Permission decoding (file_permission over fstat.mode.to_s(2))

  function Pow2(j: nat): (p: nat)
    ensures p >= 1
  {
    if j == 0 then 1 else 2 * Pow2(j - 1)
  }

  /** Bit j of n (bit 0 is the least significant). */
  function Bit(n: nat, j: nat): bool
  {
    if j == 0 then n % 2 == 1 else Bit(n / 2, j - 1)
  }

  /** mode.to_s(2): the binary digits of the mode. */
  function Binary(n: nat): string
  {
    Digits(n, 2)
  }

  /** The digit j places from the right of the binary form is bit j. */
  lemma {:induction false} BinaryDigitIsBit(n: nat, j: nat)
    requires j < |Binary(n)|
    ensures Binary(n)[|Binary(n)| - 1 - j] == if Bit(n, j) then '1' else '0'
    decreases j
  {
    var s := Binary(n);
    var p: string := if n < 2 then [] else Binary(n / 2);
    assert s == p + [DigitChar(n % 2)];
    if j == 0 {
      assert DigitChar(0) == '0' && DigitChar(1) == '1';
    } else {
      BinaryDigitIsBit(n / 2, j - 1);
      assert s[|s| - 1 - j] == p[|p| - 1 - (j - 1)];
    }
  }

  /** The binary form has more than k digits exactly when n is at least 2^k. */
  lemma {:induction false} BinaryLength(n: nat, k: nat)
    requires k >= 1
    ensures |Binary(n)| >= k + 1 <==> n >= Pow2(k)
    decreases k
  {
    var p: string := if n < 2 then [] else Binary(n / 2);
    assert Binary(n) == p + [DigitChar(n % 2)];
    if k > 1 && n >= 2 {
      BinaryLength(n / 2, k - 1);
    }
  }

  /** Nine or more binary digits, as file_permission needs, means a mode of at least 256. */
  lemma NineDigits(n: nat)
    ensures |Binary(n)| >= 9 <==> n >= 256
  {
    BinaryLength(n, 8);
    assert Pow2(8) == 256;
  }

  /** Adding a multiple of 2^k leaves the bits below k alone. */
  lemma {:induction false} BitShift(n: nat, t: int, k: nat, j: nat)
    requires j < k
    requires n + Pow2(k) * t >= 0
    ensures Bit(n + Pow2(k) * t, j) == Bit(n, j)
    decreases j
  {
    var x := Pow2(k - 1) * t;
    assert Pow2(k) * t == 2 * x;
    var m := n + 2 * x;
    if j > 0 {
      assert m / 2 == n / 2 + x;
      BitShift(n / 2, t, k - 1, j - 1);
    }
  }

  /** The letter for position k of a permission string: r, w, x for owner,
      group and other in turn. */
  function PermissionLetter(k: nat): char
  {
    if k % 3 == 0 then 'r' else if k % 3 == 1 then 'w' else 'x'
  }

  /** What file_permission computes from a string of binary digits: from its last
      nine digits, a letter where the digit is '1' and '-' elsewhere. */
  function PermissionString(binaryCode: string): (r: string)
    requires |binaryCode| >= 9
    ensures |r| == 9
  {
    seq(9, k requires 0 <= k < 9 =>
      if binaryCode[|binaryCode| - 9 + k] == '1' then PermissionLetter(k) else '-')
  }

  /** The permission string for a mode, read off its nine low bits. */
  function PermissionOf(mode: nat): (r: string)
    ensures |r| == 9
  {
    seq(9, k requires 0 <= k < 9 => if Bit(mode, 8 - k) then PermissionLetter(k) else '-')
  }

  /** Decoding the binary digits of a mode gives the mode's permission bits. */
  lemma PermissionOfBinary(mode: nat)
    requires mode >= 256
    ensures |Binary(mode)| >= 9
    ensures PermissionString(Binary(mode)) == PermissionOf(mode)
  {
    NineDigits(mode);
    var s := Binary(mode);
    forall k | 0 <= k < 9
      ensures PermissionString(s)[k] == PermissionOf(mode)[k]
    {
      BinaryDigitIsBit(mode, 8 - k);
      assert |s| - 9 + k == |s| - 1 - (8 - k);
    }
  }

  /** Only the nine low bits matter: modes equal modulo 512 decode identically. */
  lemma PermissionModulo512(m1: nat, m2: nat)
    requires m1 % 512 == m2 % 512
    ensures PermissionOf(m1) == PermissionOf(m2)
  {
    assert Pow2(9) == 512;
    forall k | 0 <= k < 9 ensures PermissionOf(m1)[k] == PermissionOf(m2)[k] {
      BitShift(m1 % 512, m1 / 512, 9, 8 - k);
      BitShift(m2 % 512, m2 / 512, 9, 8 - k);
    }
  }

  /** The shape of a permission string: nine characters, each the letter of its
      position or '-', a letter exactly where the mode has the bit set. */
  lemma PermissionShape(mode: nat)
    ensures |PermissionOf(mode)| == 9
    ensures forall k :: 0 <= k < 9 ==> PermissionOf(mode)[k] in {PermissionLetter(k), '-'}
    ensures forall k :: 0 <= k < 9 ==> (PermissionOf(mode)[k] != '-' <==> Bit(mode, 8 - k))
    ensures forall k :: 0 <= k < 9 && k % 3 == 0 ==> PermissionOf(mode)[k] in "r-"
    ensures forall k :: 0 <= k < 9 && k % 3 == 1 ==> PermissionOf(mode)[k] in "w-"
    ensures forall k :: 0 <= k < 9 && k % 3 == 2 ==> PermissionOf(mode)[k] in "x-"
  {
  }

  /** file_permission: three passes, one per triple of the last nine digits,
      each appending r/w/x or '-' for a '1' or another digit. */
  method FilePermission(binaryCode: string) returns (permission: string)
    requires |binaryCode| >= 9
    ensures permission == PermissionString(binaryCode)
  {
    var digits := binaryCode[|binaryCode| - 9..];
    permission := "";
    var t := 0;
    while t < 3
      invariant 0 <= t <= 3
      invariant permission == PermissionString(binaryCode)[..3 * t]
    {
      var a := digits[3 * t..3 * t + 3];
      permission := permission + (if a[0] == '1' then "r" else "-");
      permission := permission + (if a[1] == '1' then "w" else "-");
      permission := permission + (if a[2] == '1' then "x" else "-");
      t := t + 1;
    }
  }

  // ---------------------------------------------------------------------------
  // Rows (parse_long_option, long_info_file, file_symbol)

  /** file_symbol: the first character of the type name, so a regular file is "f". */
  function FileSymbol(t: FileType): (r: string)
    ensures |r| == 1 && r[0] == TypeName(t)[0]
  {
    TypeName(t)[..1]
  }

  /** The eight fields of a long row: type symbol, permissions, link count, uid,
      gid, size, mtime, name. */
  function LongRow(e: Entry): (row: Row)
    requires e.stat.mode >= 256
    ensures |row| == 8 && row[7] == Str(DisplayName(e.name))
  {
    NineDigits(e.stat.mode);
    [Str(FileSymbol(e.stat.ftype)), Str(PermissionString(Binary(e.stat.mode))),
     Num(e.stat.nlink), Num(e.stat.uid), Num(e.stat.gid), Num(e.stat.size),
     Num(e.stat.mtime), Str(DisplayName(e.name))]
  }

  /** The row parse_long_option makes of one entry. */
  function RowOf(e: Entry, long: bool): (row: Row)
    requires long ==> e.stat.mode >= 256
    ensures |row| == if long then 8 else 1
    ensures row[|row| - 1] == Str(DisplayName(e.name))
  {
    if long then LongRow(e) else [Str(DisplayName(e.name))]
  }

  /** The modes long format can decode (file_permission needs nine binary digits). */
  predicate LongReady(files: seq<Entry>, long: bool)
  {
    long ==> forall i :: 0 <= i < |files| ==> files[i].stat.mode >= 256
  }

  /** A long row has eight fields: the type symbol, the permission string of the
      mode, the counts and ids as numbers, and the shown name last. */
  lemma LongRowShape(e: Entry)
    requires e.stat.mode >= 256
    ensures |LongRow(e)| == 8
    ensures LongRow(e)[0] == Str([TypeName(e.stat.ftype)[0]])
    ensures LongRow(e)[1] == Str(PermissionOf(e.stat.mode))
    ensures LongRow(e)[2..7] == [Num(e.stat.nlink), Num(e.stat.uid), Num(e.stat.gid),
                                 Num(e.stat.size), Num(e.stat.mtime)]
    ensures LongRow(e)[7] == Str(DisplayName(e.name))
  {
    PermissionOfBinary(e.stat.mode);
    assert FileSymbol(e.stat.ftype) == [TypeName(e.stat.ftype)[0]];
  }

  /** long_info_file: pushes the fields of the long row one group at a time. */
  method LongInfoFile(e: Entry) returns (row: Row)
    requires e.stat.mode >= 256
    ensures row == LongRow(e)
  {
    NineDigits(e.stat.mode);
    var fstat := e.stat;
    var permission := FilePermission(Binary(fstat.mode));
    row := [];
    row := row + [Str(FileSymbol(fstat.ftype)), Str(permission)];
    row := row + [Num(fstat.nlink), Num(fstat.uid), Num(fstat.gid), Num(fstat.size), Num(fstat.mtime)];
    row := row + [Str(DisplayName(e.name))];
  }

  /** parse_long_option: one row per entry, in entry order. */
  method ParseLongOption(files: seq<Entry>, long: bool) returns (rows: seq<Row>)
    requires LongReady(files, long)
    ensures |rows| == |files|
    ensures forall i :: 0 <= i < |files| ==> rows[i] == RowOf(files[i], long)
  {
    rows := [];
    for i := 0 to |files|
      invariant |rows| == i
      invariant forall j :: 0 <= j < i ==> rows[j] == RowOf(files[j], long)
    {
      var row: Row;
      if long {
        row := LongInfoFile(files[i]);
      } else {
        row := [Str(DisplayName(files[i].name))];
      }
      rows := rows + [row];
    }
  }

  /** The rows parse_long_option makes of a sequence of entries. */
  function Rows(files: seq<Entry>, long: bool): (rows: seq<Row>)
    requires LongReady(files, long)
    ensures |rows| == |files|
    ensures forall i :: 0 <= i < |files| ==> rows[i] == RowOf(files[i], long)
  {
    seq(|files|, i requires 0 <= i < |files| => RowOf(files[i], long))
  }

  // ---------------------------------------------------------------------------
  // Ordering (parse_reverse_option)

  /** `<=>` on row cells. Two cells of different kinds never meet in one listing
      (all its rows have the same shape); they are ordered numbers first. */
  function FieldCmp(a: Field, b: Field): (r: int)
    ensures r == 0 <==> a == b
    ensures a.Num? && b.Num? ==> (r < 0 <==> a.n < b.n)
    ensures a.Str? && b.Str? ==> (r < 0 <==> StrCmp(a.s, b.s) < 0)
    ensures a.Num? != b.Num? ==> (r < 0 <==> a.Num?)
  {
    match (a, b)
    case (Str(x), Str(y)) => StrCmp(x, y)
    case (Num(x), Num(y)) => IntCmp(x, y)
    case (Num(_), Str(_)) => -1
    case (Str(_), Num(_)) => 1
  }

  lemma FieldCmpTotalOrder()
    ensures TotalOrder(FieldCmp)
  {
    StrCmpTotalOrder();
    forall a: Field, b: Field, c: Field | FieldCmp(a, b) <= 0 && FieldCmp(b, c) <= 0
      ensures FieldCmp(a, c) <= 0
    {
      if a.Str? && b.Str? && c.Str? {
        assert StrCmp(a.s, b.s) <= 0 && StrCmp(b.s, c.s) <= 0;
      }
    }
  }

  /** Array#<=> on whole rows: what the default `files.sort` compares. */
  function RowCmp(a: Row, b: Row): (r: int)
    ensures r == 0 <==> a == b
    ensures a != [] && b != [] && a[0] != b[0] ==> r == FieldCmp(a[0], b[0])
  {
    FieldCmpTotalOrder();
    LexCmpZero(a, b, FieldCmp);
    LexCmp(a, b, FieldCmp)
  }

  lemma RowCmpTotalOrder()
    ensures TotalOrder(RowCmp)
  {
    FieldCmpTotalOrder();
    forall a: Row, b: Row ensures RowCmp(a, b) == -RowCmp(b, a) {
      LexCmpAntisymmetric(a, b, FieldCmp);
    }
    forall a: Row, b: Row ensures RowCmp(a, b) == 0 ==> a == b {
      LexCmpZero(a, b, FieldCmp);
    }
    forall a: Row, b: Row, c: Row | RowCmp(a, b) <= 0 && RowCmp(b, c) <= 0
      ensures RowCmp(a, c) <= 0
    {
      LexCmpTransitive(a, b, c, FieldCmp);
    }
  }

  /** row[7] as a sequence of at most one cell (a row too short has none, like nil). */
  function NameKey(row: Row): Row
  {
    if |row| > 7 then [row[7]] else []
  }

  /** The block of `sort { |a, b| b[7] <=> a[7] }`: by name, descending. */
  function NameDescCmp(a: Row, b: Row): (r: int)
    ensures r == 0 <==> NameKey(a) == NameKey(b)
    ensures |a| > 7 && |b| > 7 && a[7] != b[7] ==> r == FieldCmp(b[7], a[7])
  {
    RowCmp(NameKey(b), NameKey(a))
  }

  lemma NameDescCmpTotalPreorder()
    ensures TotalPreorder(NameDescCmp)
  {
    RowCmpTotalOrder();
    forall a: Row, b: Row, c: Row | NameDescCmp(a, b) <= 0 && NameDescCmp(b, c) <= 0
      ensures NameDescCmp(a, c) <= 0
    {
      assert RowCmp(NameKey(c), NameKey(b)) <= 0 && RowCmp(NameKey(b), NameKey(a)) <= 0;
    }
  }

  /** parse_reverse_option. With -r and -l: sorted by name, descending. With -r
      alone: the enumeration order reversed, nothing sorted. Otherwise: sorted
      ascending by whole-row comparison. Every branch permutes its input. */
  function ParseReverseOption(rows: seq<Row>, reverse: bool, long: bool): (r: seq<Row>)
    ensures multiset(r) == multiset(rows)
    ensures reverse && !long ==> |r| == |rows| && forall i :: 0 <= i < |rows| ==> r[i] == rows[|rows| - 1 - i]
    ensures reverse && long ==> Sorted(r, NameDescCmp)
    ensures !reverse ==> Sorted(r, RowCmp)
  {
    if reverse && long then
      NameDescCmpTotalPreorder();
      SortBySorted(rows, NameDescCmp);
      SortBy(rows, NameDescCmp)
    else if reverse then
      ReverseMultiset(rows);
      Reverse(rows)
    else
      RowCmpTotalOrder();
      SortBySorted(rows, RowCmp);
      SortBy(rows, RowCmp)
  }

  /** The default order is the only ascending arrangement of the rows, so any
      sorting algorithm Array#sort uses gives this result. */
  lemma DefaultOrderUnique(rows: seq<Row>, long: bool, other: seq<Row>)
    requires Sorted(other, RowCmp) && multiset(other) == multiset(rows)
    ensures ParseReverseOption(rows, false, long) == other
  {
    RowCmpTotalOrder();
    var r := ParseReverseOption(rows, false, long);
    SortedUnique(r, other, RowCmp);
  }

  /** In short mode the default order is by name. */
  lemma ShortRowsByName(a: string, b: string)
    ensures RowCmp([Str(a)], [Str(b)]) == StrCmp(a, b)
  {
    StrCmpTotalOrder();
    assert [Str(a)][1..] == [] && [Str(b)][1..] == [];
    assert FieldCmp(Str(a), Str(b)) == StrCmp(a, b);
    if StrCmp(a, b) == 0 {
      assert LexCmp<Field>([], [], FieldCmp) == 0;
    }
  }

  /** Rows that start with the same string compare as their remainders do. */
  lemma RowCmpSameHead(a: Row, b: Row)
    requires a != [] && b != [] && a[0] == b[0] && a[0].Str?
    ensures RowCmp(a, b) == RowCmp(a[1..], b[1..])
  {
    StrCmpTotalOrder();
    assert StrCmp(a[0].s, a[0].s) == -StrCmp(a[0].s, a[0].s);
  }

  /** In long mode rows of different type symbols are ordered by the symbol
      alone (so directories before files before links), and rows with the same
      symbol by the permission string next. */
  lemma LongRowsTypeFirst(e1: Entry, e2: Entry)
    requires e1.stat.mode >= 256 && e2.stat.mode >= 256
    ensures var c := StrCmp(FileSymbol(e1.stat.ftype), FileSymbol(e2.stat.ftype));
      c != 0 ==> RowCmp(LongRow(e1), LongRow(e2)) == c
    ensures (FileSymbol(e1.stat.ftype) == FileSymbol(e2.stat.ftype) &&
      PermissionOf(e1.stat.mode) != PermissionOf(e2.stat.mode)) ==>
      RowCmp(LongRow(e1), LongRow(e2)) == StrCmp(PermissionOf(e1.stat.mode), PermissionOf(e2.stat.mode))
  {
    LongRowShape(e1);
    LongRowShape(e2);
    StrCmpTotalOrder();
    var a, b := LongRow(e1), LongRow(e2);
    var p1, p2 := PermissionOf(e1.stat.mode), PermissionOf(e2.stat.mode);
    if FileSymbol(e1.stat.ftype) == FileSymbol(e2.stat.ftype) && p1 != p2 {
      RowCmpSameHead(a, b);
      assert a[1..][0] == Str(p1) && b[1..][0] == Str(p2);
      assert StrCmp(p1, p2) != 0;
    }
  }

  /** With -r and -l, long rows come out in non-increasing order of shown name. */
  lemma ReverseLongByName(files: seq<Entry>)
    requires LongReady(files, true)
    ensures var r := ParseReverseOption(Rows(files, true), true, true);
      forall i, j :: 0 <= i < j < |r| ==> StrCmp(LongName(r[j]), LongName(r[i])) <= 0
  {
    var rows := Rows(files, true);
    var r := ParseReverseOption(rows, true, true);
    forall i, j | 0 <= i < j < |r| ensures StrCmp(LongName(r[j]), LongName(r[i])) <= 0 {
      assert NameDescCmp(r[i], r[j]) <= 0;
      assert r[i] in multiset(rows) && r[j] in multiset(rows);
      ListedLongRow(files, r[i]);
      ListedLongRow(files, r[j]);
      NameDescCmpOfLongRows(r[i], r[j]);
    }
  }

  /** Every row of a long listing has its shown name in field 7. */
  lemma ListedLongRow(files: seq<Entry>, row: Row)
    requires LongReady(files, true)
    requires row in multiset(Rows(files, true))
    ensures |row| > 7 && row[7].Str?
  {
    var rows := Rows(files, true);
    var p :| 0 <= p < |rows| && rows[p] == row;
    LongRowShape(files[p]);
  }

  /** On long rows the -r -l order compares the shown names. */
  lemma NameDescCmpOfLongRows(a: Row, b: Row)
    requires |a| > 7 && a[7].Str? && |b| > 7 && b[7].Str?
    ensures NameDescCmp(a, b) == StrCmp(LongName(b), LongName(a))
  {
    var ka, kb := NameKey(a), NameKey(b);
    assert ka == [Str(LongName(a))] && kb == [Str(LongName(b))];
    assert ka[1..] == [] && kb[1..] == [];
    assert FieldCmp(kb[0], ka[0]) == StrCmp(LongName(b), LongName(a));
    assert LexCmp(kb[1..], ka[1..], FieldCmp) == 0;
  }

  /** The shown name in a long row. */
  function LongName(row: Row): string
  {
    if |row| > 7 && row[7].Str? then row[7].s else ""
  }

  /** The -r flag alone does not give the reverse of the default order: for rows
      b, a it lists a, b, where descending order is b, a. */
  lemma ReverseAloneIsNotDescending()
    ensures var rows := [[Str("b")], [Str("a")]];
      ParseReverseOption(rows, true, false) == [[Str("a")], [Str("b")]] &&
      Reverse(ParseReverseOption(rows, false, false)) == [[Str("b")], [Str("a")]]
  {
    DefaultOrderOfBA();
    var sorted: seq<Row> := [[Str("a")], [Str("b")]];
    assert Reverse(sorted) == [sorted[1], sorted[0]];
  }

  lemma DefaultOrderOfBA()
    ensures ParseReverseOption([[Str("b")], [Str("a")]], false, false) == [[Str("a")], [Str("b")]]
  {
    var rows: seq<Row> := [[Str("b")], [Str("a")]];
    var sorted: seq<Row> := [[Str("a")], [Str("b")]];
    assert Sorted(sorted, RowCmp) by {
      ShortRowsByName("a", "b");
      assert StrCmp("a", "b") < 0;
    }
    assert multiset(sorted) == multiset(rows) by {
      assert rows == [sorted[1], sorted[0]];
    }
    DefaultOrderUnique(rows, false, sorted);
  }

  // ---------------------------------------------------------------------------
  // The pipeline (parse_options) and printing (print_files)

  /** The rows parse_options returns, as a function of its inputs. */
  function Listing(files: seq<Entry>, all: bool, long: bool, reverse: bool): (rows: seq<Row>)
    requires LongReady(ParseAllOption(files, all), long)
    ensures multiset(rows) == multiset(Rows(ParseAllOption(files, all), long))
    ensures !reverse ==> Sorted(rows, RowCmp)
    ensures reverse && long ==> Sorted(rows, NameDescCmp)
  {
    ParseReverseOption(Rows(ParseAllOption(files, all), long), reverse, long)
  }

  /** parse_options: filter, project, order. */
  method ParseOptions(files: seq<Entry>, all: bool, long: bool, reverse: bool) returns (rows: seq<Row>)
    requires LongReady(ParseAllOption(files, all), long)
    ensures rows == Listing(files, all, long, reverse)
  {
    var allFiles := ParseAllOption(files, all);
    var longFiles := ParseLongOption(allFiles, long);
    assert longFiles == Rows(allFiles, long);
    rows := ParseReverseOption(longFiles, reverse, long);
  }

  /** The listing holds one row for every entry the filter keeps, no more, no less. */
  lemma ListingRows(files: seq<Entry>, all: bool, long: bool, reverse: bool)
    requires LongReady(ParseAllOption(files, all), long)
    ensures var kept := ParseAllOption(files, all);
      multiset(Listing(files, all, long, reverse)) == multiset(Rows(kept, long)) &&
      |Listing(files, all, long, reverse)| == |kept|
  {
    var rows := Rows(ParseAllOption(files, all), long);
    assert |multiset(Listing(files, all, long, reverse))| == |multiset(rows)|;
  }

  /** The text a cell interpolates to. */
  function FieldText(f: Field): string
  {
    match f
    case Str(s) => s
    case Num(n) => IntToString(n)
  }

  /** row[i] interpolated; a missing cell is nil and interpolates to "". */
  function CellText(row: Row, i: nat): string
  {
    if i < |row| then FieldText(row[i]) else ""
  }

  /** The line print_files builds for a row: cells 0 and 1 joined, then the
      others each after a space. */
  function RowText(row: Row): (line: string)
    ensures |line| >= 6
    ensures row != [] ==> |line| >= |FieldText(row[0])| && line[..|FieldText(row[0])|] == FieldText(row[0])
  {
    CellText(row, 0) + CellText(row, 1) + " " + CellText(row, 2) + " " + CellText(row, 3) + " " +
    CellText(row, 4) + " " + CellText(row, 5) + " " + CellText(row, 6) + " " + CellText(row, 7)
  }

  function RowTexts(rows: seq<Row>): seq<string>
  {
    Map(rows, RowText)
  }

  /** A short row prints as the name followed by six spaces (the nil cells). */
  lemma ShortRowText(name: string)
    ensures RowText([Str(name)]) == name + "      "
  {
  }

  /** A long row prints as symbol and permissions run together, then the other
      fields separated by single spaces. */
  lemma LongRowText(e: Entry)
    requires e.stat.mode >= 256
    ensures RowText(LongRow(e)) ==
      FileSymbol(e.stat.ftype) + PermissionOf(e.stat.mode) + " " + IntToString(e.stat.nlink) + " " +
      IntToString(e.stat.uid) + " " + IntToString(e.stat.gid) + " " + IntToString(e.stat.size) + " " +
      IntToString(e.stat.mtime) + " " + DisplayName(e.name)
  {
    LongRowShape(e);
  }

  /** A row whose strings hold no newline prints without one. */
  lemma RowTextNoNewline(row: Row)
    requires forall i :: 0 <= i < |row| && row[i].Str? ==> '\n' !in row[i].s
    ensures '\n' !in RowText(row)
  {
    forall i: nat ensures '\n' !in CellText(row, i) {
    }
  }

  /** print_files: one `puts` per row, in row order. */
  method PrintFiles(rows: seq<Row>) returns (out: string)
    ensures out == PutsAll(RowTexts(rows))
  {
    out := "";
    for i := 0 to |rows|
      invariant out == PutsAll(RowTexts(rows[..i]))
    {
      var line := RowText(rows[i]);
      MapSnoc(rows, i, RowText);
      PutsAllAppendOne(RowTexts(rows[..i]), line);
      out := out + Puts(line);
    }
    assert rows[..|rows|] == rows;
  }

  /** When no name holds a newline, the printed listing reads back as exactly one
      line per row, in row order. */
  lemma PrintFilesOneLinePerRow(rows: seq<Row>)
    requires forall i, j :: 0 <= i < |rows| && 0 <= j < |rows[i]| && rows[i][j].Str? ==> '\n' !in rows[i][j].s
    ensures |EachLine(PutsAll(RowTexts(rows)))| == |rows|
    ensures forall i :: 0 <= i < |rows| ==> EachLine(PutsAll(RowTexts(rows)))[i] == RowText(rows[i]) + "\n"
  {
    var texts := RowTexts(rows);
    forall i | 0 <= i < |rows| ensures '\n' !in texts[i] {
      RowTextNoNewline(rows[i]);
    }
    PutsAllReadBack(texts);
  }
}
