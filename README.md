# Three Ruby command-line clones, modelled in Dafny

This project models the core of three small Ruby scripts that imitate Unix tools:

- **ls** (`05.ls/ls.rb`). It takes the entries of a directory, each a name and a stat record.
  Hidden entries are dropped unless `-a` is given. Each entry becomes a short row `[name]` or,
  with `-l`, an eight-field long row: type symbol, permission string, link count, uid, gid,
  size, mtime, name. The rows are ordered by one of three rules (`-r -l`, `-r` alone, the
  default), then printed with one `puts` per row.
- **wc** (`06.wc/wc.rb`). It counts lines, words and bytes of standard input or of the files
  named on the command line, using a different word tokeniser for each. It prints one row per
  file and a "合計" (total) row of column sums, or only line counts with `-l`.
- **cal** (`02.calendar/calendar.rb`). It prints a month: two header lines, three-space blank
  cells up to the weekday of the 1st, then three-character day cells with a line break after
  every Saturday, and a final newline unless the last day was a Saturday.

Module layout:

| file | module | contents |
|---|---|---|
| `text.dfy` | `Text` | the Ruby text built-ins the scripts lean on: `Integer#to_s`, `puts`, `each_line`/`readlines`, and character counting |
| `ordering.dfy` | `Ordering` | `<=>` as integer-valued comparators, lexicographic `Array#<=>`, and a sort standing for `Array#sort` with the uniqueness of a sorted arrangement |
| `ls.dfy` | `Ls` | the listing pipeline |
| `wc.dfy` | `Wc` | the two tokenisers, the aggregation, and the printing with totals |
| `calendar.dfy` | `Calendar` | the month layout |

Output written with `puts` and `print` is modelled as the returned text. Each `puts s` adds
`s` followed by a newline, unless `s` already ends with one. Loops that build a result
(`file_permission`, `parse_long_option`, `parse_standard_input`, `parse_arguments`, the
printing loops, `print_space`, `print_day`, and `WcFile#number_of_lines` and
`#number_of_words`) are methods with loop invariants. `long_info_file` and
`WcFile#number_of_bytes` have no loop: they are loop-free methods, proved equal to `LongRow`
and `Utf8Length`. Each method is proved equal to a specification function, and the properties
are proved about that function.

Where the code and its own help text differ, the model follows the code. The help text for
`-r` says "show in descending order" (`05.ls/ls.rb:12`). But with `-r` and without `-l`, `ls`
lists the entries in exactly the reverse of directory enumeration order, not the reverse of the
sorted order (`05.ls/ls.rb:115-116`).
`Ls.ReverseAloneIsNotDescending` exhibits the difference.

## Model

| member | source | states |
|---|---|---|
| Text.Digits | 05.ls/ls.rb:88 | `Integer#to_s(2)` / `to_s(10)` of a non-negative integer: at least one digit, all digits, and no leading zero except for 0 itself |
| Text.DecimalRoundTrip | 06.wc/wc.rb:80 | reading back the decimal digits of a number gives the number, so a printed count denotes the count |
| Text.DigitChar | 06.wc/wc.rb:80 | a digit value below ten maps to a character from '0' to '9', and to '0' exactly for zero |
| Text.DigitRoundTrip | 06.wc/wc.rb:80 | the character of a digit reads back as that digit |
| Text.IntToString | 06.wc/wc.rb:80 | interpolating an integer gives a non-empty string that starts with '-' exactly when the integer is negative, holds only digits after its first character, and never a newline |
| Text.Magnitude | 06.wc/wc.rb:80 | the magnitude of an integer is the integer or its negation, and never negative |
| Text.SignAndDigits | 06.wc/wc.rb:80 | past the minus sign of a negative integer, the interpolated string is the decimal digits of the magnitude |
| Text.IntToStringValue | 06.wc/wc.rb:80 | the digits after the optional minus sign read back as the integer's magnitude |
| Text.IntToStringInjective | 06.wc/wc.rb:80 | different integers interpolate to different strings, so a printed count determines the count |
| Text.Puts | 02.calendar/calendar.rb:31 | the text of `puts s` is one character longer than s unless s already ends with a newline, and always ends with a newline |
| Text.PutsShape | 02.calendar/calendar.rb:31 | `puts s` writes s itself and then at most a newline, the newline exactly when s does not already end with one (as for a name that ends in a newline); a second `puts` of that text adds nothing |
| Text.PutsEmpty | 02.calendar/calendar.rb:41 | a bare `puts` writes exactly one newline |
| Text.Map | 05.ls/ls.rb:48-50 | mapping over rows keeps their number and order: element i of the result is the image of element i |
| Text.PutsAll | 05.ls/ls.rb:48-50 | the text of one `puts` per element is empty only for no elements and otherwise ends with a newline |
| Text.PutsAllAppendOne | 05.ls/ls.rb:48-50 | one more `puts` call appends exactly its own text |
| Text.PutsAllSnoc | 02.calendar/calendar.rb:10-13 | a sequence of `puts` calls, split before its last call, writes the earlier calls' text then the last call's |
| Text.Count | 06.wc/wc.rb:105-113 | a character occurs no more often than the text is long |
| Text.CountZero | 06.wc/wc.rb:105-113 | a character is counted zero times exactly when it does not occur |
| Text.CountAppend | 06.wc/wc.rb:105-113 | counts over two concatenated texts add up |
| Text.FirstLineLength | 06.wc/wc.rb:108 | the first line `each_line` yields is non-empty, holds no newline before its end, and ends with a newline or at the end of the text |
| Text.EachLine | 06.wc/wc.rb:108 | `each_line` never yields an empty line |
| Text.EachLineRoundTrip | 06.wc/wc.rb:108 | joining the lines `each_line` yields gives the text back, so nothing is lost or added |
| Text.EachLineShape | 06.wc/wc.rb:108 | no line holds a newline before its last character, and every line but the last ends with a newline |
| Text.EachLineLast | 06.wc/wc.rb:108 | a non-empty text yields at least one line, and the last line ends with a newline exactly when the text does |
| Text.EachLineCount | 06.wc/wc.rb:105-113 | `each_line` yields one line per newline, plus one for an unterminated last line |
| Text.EachLineAppend | 06.wc/wc.rb:30 | the lines of a text whose last line is terminated, followed by more text, are the lines of each part |
| Text.PutsEach | 05.ls/ls.rb:48-50 | one printed line per `puts` argument |
| Text.PutsEachNewline | 05.ls/ls.rb:49 | a `puts` of a newline-free argument prints that argument and one newline |
| Text.PutsAllLines | 05.ls/ls.rb:48-50 | text written by `puts` calls with newline-free arguments reads back as those arguments, each with its newline, in order |
| Text.PutsAllReadBack | 05.ls/ls.rb:48-50 | the same, stated as one line read back per call, line i being argument i plus a newline |
| Text.PutsAllReadBackSnoc | 06.wc/wc.rb:79-83 | rows followed by one last (total) line read back as the rows' lines then the total's line |
| Text.PutsTwoLines | 02.calendar/calendar.rb:10-13 | two `puts` calls of newline-free lines read back as exactly those two lines |
| Text.PutsAllPair | 02.calendar/calendar.rb:10-13 | two `puts` calls of newline-free lines write the first line, a newline, the second line and a newline |
| Text.EachLineOfLine | 02.calendar/calendar.rb:11 | one newline-free line and its newline read back as one line |
| Text.PutsAppendLine | 05.ls/ls.rb:49 | one more `puts` of a newline-free line after terminated text adds exactly one line |
| Text.FirstLineOfAppend | 06.wc/wc.rb:108 | text appended after a terminated line does not move where the first line ends |
| Text.FirstLineIsFirstNewline | 06.wc/wc.rb:108 | the first line ends at the first newline |
| Ordering.IntCmp | 05.ls/ls.rb:118 | `Integer#<=>` is negative, zero or positive exactly when the left operand is smaller, equal or larger |
| Ordering.CharCmp | 05.ls/ls.rb:113 | characters compare by code point, negative or zero exactly when smaller or equal |
| Ordering.LexCmp | 05.ls/ls.rb:118 | when the shared positions all compare equal, `Array#<=>` is negative exactly when the left array is shorter and zero exactly when both are equally long |
| Ordering.LexCmpFirstDifference | 05.ls/ls.rb:118 | `Array#<=>` answers the comparison of the first position where the elements differ |
| Ordering.StrCmp | 05.ls/ls.rb:113 | `String#<=>` is zero exactly for equal strings, and a proper prefix comes first |
| Ordering.LexCmpAntisymmetric | 05.ls/ls.rb:118 | swapping the operands of `Array#<=>` negates the answer |
| Ordering.LexCmpZero | 05.ls/ls.rb:118 | `Array#<=>` answers zero only for equal arrays |
| Ordering.LexCmpTransitive | 05.ls/ls.rb:118 | "not after" under `Array#<=>` is transitive |
| Ordering.LexCmpTotalOrder | 05.ls/ls.rb:118 | `Array#<=>` over a total order is a total order |
| Ordering.StrCmpTotalOrder | 05.ls/ls.rb:113 | `String#<=>` is a total order |
| Ordering.Insert | 05.ls/ls.rb:118 | inserting adds exactly one occurrence of the element |
| Ordering.SortBy | 05.ls/ls.rb:118 | `sort` returns a permutation of its input |
| Ordering.InsertSorted | 05.ls/ls.rb:118 | inserting into a sorted sequence keeps it sorted |
| Ordering.SortBySorted | 05.ls/ls.rb:112-118 | `sort` returns its input in sorted order for any total preorder |
| Ordering.SortedUnique | 05.ls/ls.rb:118 | two sorted arrangements of the same elements are equal when the comparator ties no two different elements, so the result of `sort` does not depend on the algorithm |
| Ordering.SortedCons | 05.ls/ls.rb:118 | an element that follows none of a sorted sequence's elements can go before them |
| Ordering.SortedFirstIsLeast | 05.ls/ls.rb:118 | the first element of a sorted sequence follows none of its elements |
| Ordering.Reverse | 05.ls/ls.rb:116 | `Array#reverse` puts element i at position n - 1 - i |
| Ordering.ReverseMultiset | 05.ls/ls.rb:116 | `reverse` is a permutation |
| Ls.TypeName | 05.ls/ls.rb:94 | every type name `ftype` returns is non-empty |
| Ls.IsHidden | 05.ls/ls.rb:67 | `/^\./` matches every name that starts with a period, and only names that hold one |
| Ls.HiddenSingleLine | 05.ls/ls.rb:67 | for a name on one line, `/^\./` matches exactly when the name starts with a period |
| Ls.NotHiddenFiles | 05.ls/ls.rb:65-69 | `not_hidden_files` keeps exactly the entries whose name does not match `/^\./` |
| Ls.HiddenFiles | 05.ls/ls.rb:65-69 | the entries the filter drops are exactly those whose name matches |
| Ls.ParseAllOption | 05.ls/ls.rb:54-63 | with `-a` the entries are returned unchanged; without it, the array `not_hidden_files` returns (the hash built in the loop is discarded) |
| Ls.NotHiddenFilesAppend | 05.ls/ls.rb:65-69 | the filter works entry by entry, so it keeps enumeration order |
| Ls.NotHiddenFilesPartition | 05.ls/ls.rb:65-69 | the kept and dropped entries together are the input, as a multiset |
| Ls.NotHiddenFilesKeepsVisible | 05.ls/ls.rb:65-69 | entries that are all visible pass unchanged |
| Ls.StripLineColons | 05.ls/ls.rb:78 | `gsub(/^:/, '')` never lengthens a name |
| Ls.StripNoColon | 05.ls/ls.rb:78 | a name without ':' is unchanged |
| Ls.StripNoNewline | 05.ls/ls.rb:78 | past the first line start, a name without newline is unchanged |
| Ls.DisplayName | 05.ls/ls.rb:78 | the shown name is never longer than the name, and strictly shorter when the name starts with ':' |
| Ls.DisplayNameSingleLine | 05.ls/ls.rb:78 | the shown name is the name itself when it has no ':', and for a one-line name it is the name less a leading ':' |
| Ls.BinaryDigitIsBit | 05.ls/ls.rb:88 | the binary digit j places from the right of `mode.to_s(2)` is bit j of the mode |
| Ls.BinaryLength | 05.ls/ls.rb:88 | `mode.to_s(2)` has more than k digits exactly when the mode is at least 2^k |
| Ls.NineDigits | 05.ls/ls.rb:99 | the nine digits `slice(-9, ..)` needs exist exactly when the mode is at least 256 |
| Ls.BitShift | 05.ls/ls.rb:99 | adding a multiple of 2^k leaves the bits below k alone |
| Ls.PermissionString | 05.ls/ls.rb:98-108 | the permission string from a binary string of at least nine digits has nine characters |
| Ls.PermissionOf | 05.ls/ls.rb:98-108 | the permission string of a mode has nine characters |
| Ls.PermissionOfBinary | 05.ls/ls.rb:98-108 | decoding the last nine binary digits of a mode gives the permission string read off the mode's nine low bits |
| Ls.PermissionModulo512 | 05.ls/ls.rb:99-106 | modes equal modulo 512 decode to the same permission string |
| Ls.PermissionShape | 05.ls/ls.rb:98-108 | nine characters; positions 0/3/6 are 'r' or '-', 1/4/7 'w' or '-', 2/5/8 'x' or '-'; position k is a letter exactly when bit 8 - k of the mode is set |
| Ls.FilePermission | 05.ls/ls.rb:98-108 | the loop over the three triples of the last nine digits builds exactly the permission string |
| Ls.FileSymbol | 05.ls/ls.rb:93-95 | the type symbol is one character, the first of the type name (so 'f' for a regular file) |
| Ls.LongRow | 05.ls/ls.rb:85-91 | a long row has eight fields, the last being the shown name |
| Ls.LongRowShape | 05.ls/ls.rb:85-91 | a long row has eight fields: symbol, permission string, link count, uid, gid, size, mtime, shown name |
| Ls.LongInfoFile | 05.ls/ls.rb:85-91 | the pushes build exactly the eight-field long row |
| Ls.RowOf | 05.ls/ls.rb:75-79 | a row has one field in short mode and eight with `-l`, and in both the shown name is its last field |
| Ls.ParseLongOption | 05.ls/ls.rb:72-82 | one row per entry, in entry order: `[name]` in short mode, the long row with `-l` |
| Ls.Rows | 05.ls/ls.rb:72-82 | the same, as a function of the entries |
| Ls.FieldCmp | 05.ls/ls.rb:112-118 | `<=>` on row cells is zero exactly for equal cells; numbers compare as integers and strings as `String#<=>` |
| Ls.RowCmp | 05.ls/ls.rb:118 | whole-row `Array#<=>` is zero exactly for equal rows, and rows with different first cells compare as those cells do |
| Ls.NameDescCmp | 05.ls/ls.rb:112-114 | the block `b[7] <=> a[7]` ties exactly rows with the same name key, and on long rows with different names answers the second row's name compared with the first's |
| Ls.FieldCmpTotalOrder | 05.ls/ls.rb:118 | `<=>` on row cells is a total order |
| Ls.RowCmpTotalOrder | 05.ls/ls.rb:118 | whole-row `Array#<=>` is a total order |
| Ls.NameDescCmpTotalPreorder | 05.ls/ls.rb:112-114 | the block `b[7] <=> a[7]` is a total preorder, so `sort` with it is well defined |
| Ls.ParseReverseOption | 05.ls/ls.rb:110-120 | every branch returns a permutation; `-r` alone is the exact reverse of the input order; `-r -l` is sorted by the name block; the default is sorted by whole-row comparison |
| Ls.DefaultOrderUnique | 05.ls/ls.rb:118 | the default order is the only ascending arrangement of the rows |
| Ls.ShortRowsByName | 05.ls/ls.rb:118 | short rows compare as their names do, so the default short listing is by name |
| Ls.RowCmpSameHead | 05.ls/ls.rb:118 | rows with the same first cell compare as their remainders do |
| Ls.LongRowsTypeFirst | 05.ls/ls.rb:118 | long rows of different type symbols are ordered by the symbol, and rows of one symbol with different permissions by the permission string |
| Ls.ReverseLongByName | 05.ls/ls.rb:111-114 | with `-r -l`, the shown names come out in non-increasing order |
| Ls.ListedLongRow | 05.ls/ls.rb:90 | every long row carries its shown name at index 7 |
| Ls.NameDescCmpOfLongRows | 05.ls/ls.rb:113 | on long rows the block compares the shown names, the second operand's first |
| Ls.ReverseAloneIsNotDescending | 05.ls/ls.rb:115-118 | for rows "b", "a", `-r` alone lists "a", "b", where the reverse of the default order is "b", "a" |
| Ls.DefaultOrderOfBA | 05.ls/ls.rb:118 | the default order lists "a" before "b" |
| Ls.ParseOptions | 05.ls/ls.rb:41-45 | `parse_options` is the filter, then the row projection, then the ordering |
| Ls.Listing | 05.ls/ls.rb:41-45 | the listing is a permutation of the rows of the entries the filter keeps; without `-r` it is sorted by whole-row comparison, with `-r -l` by the name block |
| Ls.ListingRows | 05.ls/ls.rb:41-45 | the listing holds one row for every entry the filter keeps, no more and no less |
| Ls.RowText | 05.ls/ls.rb:49 | the printed line of a row is at least six characters long and begins with the text of the row's first cell |
| Ls.ShortRowText | 05.ls/ls.rb:49 | a short row prints as its name followed by six spaces, from the six nil cells |
| Ls.LongRowText | 05.ls/ls.rb:49 | a long row prints as symbol and permission string run together, then the other six fields separated by single spaces |
| Ls.RowTextNoNewline | 05.ls/ls.rb:49 | a row whose strings hold no newline prints without one |
| Ls.PrintFiles | 05.ls/ls.rb:47-51 | the loop writes one `puts` of each row's line, in row order |
| Ls.PrintFilesOneLinePerRow | 05.ls/ls.rb:47-51 | when no name holds a newline, the output reads back as exactly one line per row, line i being row i's text |
| Wc.Run | 06.wc/wc.rb:64 | `\s+` and `　+` match a run of their characters that fits in the text, and the match is greedy: it stops only at the end of the text or at a character outside the class |
| Wc.MatchLength | 06.wc/wc.rb:64 | the standard-input pattern (newline, tab, a run of `\s`, or a run of ideographic spaces) matches at a position exactly when a separator starts there, and its match holds only separators; the alternatives are tried in order, so a leading newline or tab matches alone, a leading space takes the whole following run of `\s` (tabs included), and an ideographic space the whole run of ideographic spaces; ',' matches at most one character |
| Wc.Split | 06.wc/wc.rb:64 | `split` keeps a prefix of the fields, drops only empty ones, never ends with an empty field, and yields no more fields than the text has characters |
| Wc.FieldsCount | 06.wc/wc.rb:64 | splitting yields at most one field more than there are characters, and then the last field is empty |
| Wc.Fields | 06.wc/wc.rb:64 | splitting yields at least one field before trailing empties are removed |
| Wc.DropTrailingEmpty | 06.wc/wc.rb:64 | `split` removes exactly the empty fields at the end, keeping the others in place |
| Wc.NonSeparators | 06.wc/wc.rb:64 | the characters that are not separators are no more than the text |
| Wc.FieldsContent | 06.wc/wc.rb:64 | the fields together hold exactly the text's non-separator characters, in order |
| Wc.FieldsHaveNoSeparator | 06.wc/wc.rb:64 | no field holds a separator |
| Wc.SeparatorsDropped | 06.wc/wc.rb:64 | a leading run of separators contributes no characters to any field |
| Wc.FieldsAllSeparators | 06.wc/wc.rb:64 | a text of separators only has only empty fields |
| Wc.FieldsNoSeparator | 06.wc/wc.rb:64 | a text with no separator is one field |
| Wc.SplitEmpty | 06.wc/wc.rb:64 | `split` yields no field exactly when the text holds only separators |
| Wc.DropAllEmpty | 06.wc/wc.rb:64 | when all fields are empty, `split` drops them all |
| Wc.NonSeparatorKept | 06.wc/wc.rb:64 | a non-separator character survives splitting |
| Wc.CommaFieldCount | 06.wc/wc.rb:120 | splitting on ',' gives one field more than there are commas, before trailing empties go |
| Wc.FieldsLastNonEmpty | 06.wc/wc.rb:64 | a text ending in a non-separator has a non-empty last field, so `split` drops nothing |
| Wc.LastFieldNonEmpty | 06.wc/wc.rb:64 | the last field of a text ending in a non-separator is not empty |
| Wc.MatchBeforeEnd | 06.wc/wc.rb:64 | a match never swallows a last character that is not a separator |
| Wc.NumberOfWords | 06.wc/wc.rb:63-65 | `number_of_words` counts no more words than the line has characters |
| Wc.TabsMatchSingly | 06.wc/wc.rb:64 | because a tab matches on its own, "a\t\tb" counts three words on standard input, while "a \t b" counts two, the space taking the tab into its run |
| Wc.TwoTabs | 06.wc/wc.rb:64 | "a\t\tb" splits into "a", an empty field and "b" |
| Wc.SpaceTabSpace | 06.wc/wc.rb:64 | "a \t b" splits into "a" and "b" |
| Wc.SpaceTabSpaceRun | 06.wc/wc.rb:64 | " \t b" splits into an empty field and "b" |
| Wc.NumberOfWordsBounds | 06.wc/wc.rb:63-65 | `number_of_words` is 0 exactly for a line of separators only (the empty line included), and 1 for a non-empty line with no separator |
| Wc.NumberOfWordsTwoWords | 06.wc/wc.rb:63-65 | two words with a run of spaces between them count as two |
| Wc.RunOfSpaces | 06.wc/wc.rb:64 | `\s+` takes the whole run of spaces before a word |
| Wc.FieldsPrefixWord | 06.wc/wc.rb:64 | a word followed by a separator forms the first field |
| Wc.SumWordsAppend | 06.wc/wc.rb:56-59 | the word total of two runs of lines is the sum of their totals |
| Wc.SumSizesAppend | 06.wc/wc.rb:56-59 | the size total of two runs of lines is the sum of their totals |
| Wc.SumSizesConcat | 06.wc/wc.rb:58 | the sizes of the lines add up to the size of their concatenation |
| Wc.ParseStandardInput | 06.wc/wc.rb:52-61 | the result is the number of lines, the total of `number_of_words` and the total of line sizes |
| Wc.StdinCountsOfText | 06.wc/wc.rb:30 | for input read with `readlines`, the line count is one per newline plus an unterminated last line, and the size total is the length of the input |
| Wc.StdinCountsAdd | 06.wc/wc.rb:30 | the counts of two inputs read one after the other, the first ending in a newline, add up |
| Wc.ReplaceSeparators | 06.wc/wc.rb:119 | `gsub!` keeps the length and turns exactly the characters of its class (`\s`, the bar character and the ideographic space) into commas, leaving the others alone |
| Wc.SeparatorCount | 06.wc/wc.rb:119-120 | the characters that act as separators, commas included, are no more than the line |
| Wc.CommasAfterReplace | 06.wc/wc.rb:119-120 | after `gsub!` the commas are exactly the separators and the literal commas |
| Wc.FileLineWords | 06.wc/wc.rb:119-121 | a file line counts no more words than it has characters |
| Wc.FileLineWordsCount | 06.wc/wc.rb:119-121 | a line not ending in a separator counts one word more than it has separator characters, so runs of separators add empty words |
| Wc.FieldsSnocComma | 06.wc/wc.rb:120 | a trailing comma adds one empty field, which `split` then drops |
| Wc.FileLineWordsTrailing | 06.wc/wc.rb:118-121 | a trailing separator, such as the newline `each_line` leaves on a line, adds no word |
| Wc.FileLineWordsOfLine | 06.wc/wc.rb:118-121 | two words separated by one space count two, with or without the line's trailing newline ("foo bar\n" counts 2) |
| Wc.SeparatorCountOfWords | 06.wc/wc.rb:119-120 | two separator-free words joined by one space hold exactly one separator |
| Wc.SeparatorCountJoin | 06.wc/wc.rb:119-120 | separator counts of joined texts add up |
| Wc.SeparatorCountAppend | 06.wc/wc.rb:119-120 | separator counts add up over concatenation |
| Wc.SeparatorCountNone | 06.wc/wc.rb:119-120 | a text without separator characters counts none |
| Wc.FileLineWordsBounds | 06.wc/wc.rb:119-121 | a line of separators only counts no word, and a non-empty line with none counts one |
| Wc.TokenisersDiffer | 06.wc/wc.rb:64 | "a  b" is two words on standard input and three in a file |
| Wc.Utf8Width | 06.wc/wc.rb:128 | a character takes one to four bytes, one exactly for ASCII |
| Wc.Utf8Length | 06.wc/wc.rb:128 | a file holds at least as many bytes as characters |
| Wc.Utf8LengthAscii | 06.wc/wc.rb:128 | bytes equal characters exactly for ASCII text |
| Wc.RowOf | 06.wc/wc.rb:47 | a file's row keeps its name, counts one line per newline plus an unterminated last line, and at least one byte per character |
| Wc.WcFile.constructor | 06.wc/wc.rb:101-103 | the object records its file name, and the content it stands for |
| Wc.WcFile.NumberOfLines | 06.wc/wc.rb:105-113 | the count of lines `each_line` yields, which is one per newline plus an unterminated last line |
| Wc.WcFile.NumberOfWords | 06.wc/wc.rb:115-125 | the loop sums, over the lines, the fields of each line split on ',' after `gsub!` |
| Wc.WcFile.NumberOfBytes | 06.wc/wc.rb:127-129 | the file size is the UTF-8 length of the content, at least its character count |
| Wc.ParseArguments | 06.wc/wc.rb:43-50 | one `[name, lines, words, bytes]` row per argument, in argument order |
| Wc.SumsAppend | 06.wc/wc.rb:90-95 | the column totals of two listings add up |
| Wc.SumLinesBounds | 06.wc/wc.rb:78-82 | the line total is at least each row's count, and zero exactly when every row's is |
| Wc.SumsStep | 06.wc/wc.rb:90-95 | one more row adds its three counts to the three totals |
| Wc.LineRowText | 06.wc/wc.rb:80 | a `-l` row line begins with the row's line count and ends with a space and the file name |
| Wc.FullRowText | 06.wc/wc.rb:91 | a full row line begins with the row's line count and ends with a space and the file name |
| Wc.LineTotalText | 06.wc/wc.rb:83 | the `-l` total line begins with the total of the line counts and ends with " 合計" |
| Wc.FullTotalText | 06.wc/wc.rb:96 | the full total line begins with the total of the line counts and ends with " 合計" |
| Wc.LineRowTextsStep | 06.wc/wc.rb:79-80 | one more row appends its `puts` line |
| Wc.FullRowTextsStep | 06.wc/wc.rb:90-91 | one more row appends its `puts` line |
| Wc.PrintWcLine | 06.wc/wc.rb:77-84 | each row's line count and name, then the total of the line counts and "合計" |
| Wc.PrintWcStdin | 06.wc/wc.rb:86-97 | each row's three counts and name, then the three column totals and "合計" |
| Wc.PrintWcResult | 06.wc/wc.rb:69-75 | file rows go to `print_wc_line` with `-l` and to `print_wc_stdin` without; standard-input counts print as one `puts` |
| Wc.StdinText | 06.wc/wc.rb:73 | the standard-input line begins with the line count and holds no newline |
| Wc.StdinOutputOneLine | 06.wc/wc.rb:73 | standard-input counts print as exactly one line |
| Wc.StdinTextFields | 06.wc/wc.rb:73 | with `-l` the line is the line count alone; without it, three numbers separated by single spaces, the line count first |
| Wc.NumbersNoNewline | 06.wc/wc.rb:96 | three interpolated numbers hold no newline |
| Wc.ThreeNumbers | 06.wc/wc.rb:73 | three numbers joined by single spaces hold exactly two spaces |
| Wc.FullRowTextNoNewline | 06.wc/wc.rb:91 | a row line holds no newline when the name holds none |
| Wc.FullOutputLines | 06.wc/wc.rb:86-97 | with newline-free names the full listing reads back as one line per row, then the total line |
| Wc.LineOutputLines | 06.wc/wc.rb:77-84 | the same for the `-l` listing |
| Calendar.PrintHeader | 02.calendar/calendar.rb:10-13 | two `puts` calls: the month line, then the weekday line, read back as exactly those two lines |
| Calendar.MonthLine | 02.calendar/calendar.rb:11 | the month line starts with six spaces and ends with '年' |
| Calendar.MonthLineNoNewline | 02.calendar/calendar.rb:11 | the month line holds no newline |
| Calendar.HeaderLines | 02.calendar/calendar.rb:10-13 | the header reads back as its two lines |
| Calendar.Blank | 02.calendar/calendar.rb:19-21 | w blank cells are 3w spaces |
| Calendar.PrintSpace | 02.calendar/calendar.rb:16-22 | nothing when the 1st is a Sunday, otherwise one blank cell per weekday before it |
| Calendar.Space | 02.calendar/calendar.rb:24-26 | two spaces below ten, one otherwise |
| Calendar.DigitCount | 02.calendar/calendar.rb:31 | days 1 to 99 have one digit below ten and two from ten |
| Calendar.Cell | 02.calendar/calendar.rb:24-33 | a day cell is at least three characters; its exact shape is stated by `Calendar.CellShape` |
| Calendar.CellWidth | 02.calendar/calendar.rb:31-33 | a day cell from 1 to 99 is three characters on one line |
| Calendar.CellShape | 02.calendar/calendar.rb:24-33 | a day cell is spaces then the day's digits, right-aligned in three characters |
| Calendar.Saturday | 02.calendar/calendar.rb:30 | day d falls on a Saturday exactly when (w + d - 1) mod 7 is 6 |
| Calendar.NextDay | 02.calendar/calendar.rb:30 | the weekday moves on by one each day and wraps after Saturday |
| Calendar.DaysText | 02.calendar/calendar.rb:28-36 | n days write at least their 3n cell characters |
| Calendar.CalendarText | 02.calendar/calendar.rb:38-41 | the output is longer than the 3(w + n) characters of its blank and day cells |
| Calendar.PrintDay | 02.calendar/calendar.rb:28-36 | the loop writes each day's cell in turn, by `puts` on a Saturday and by `print` otherwise |
| Calendar.PrintCalendar | 02.calendar/calendar.rb:38-41 | header, blanks, days, then a bare `puts` unless the last day is a Saturday |
| Calendar.LastLineLength | 02.calendar/calendar.rb:28-36 | the unfinished last line is no longer than the text |
| Calendar.LastLineAppend | 02.calendar/calendar.rb:33 | `print` without a newline lengthens the current line by its text |
| Calendar.BlankHasNoNewline | 02.calendar/calendar.rb:16-22 | the blanks stay on the first week line, 3w characters long |
| Calendar.DayColumn | 02.calendar/calendar.rb:29-35 | after the blanks and k days the current line holds (w + k) mod 7 cells, so day d sits in column (w + d - 1) mod 7 and no line holds more than seven cells |
| Calendar.DayColumnAfter | 02.calendar/calendar.rb:29-35 | the same after any prefix whose last line holds w cells |
| Calendar.DayColumnStep | 02.calendar/calendar.rb:29-35 | one more day keeps the column invariant |
| Calendar.DaysTextStep | 02.calendar/calendar.rb:30-34 | day k appends its cell and, on a Saturday, a newline |
| Calendar.ColumnStep | 02.calendar/calendar.rb:30-34 | a cell moves the column on by one, and the newline after a Saturday's cell starts column 0 |
| Calendar.ColumnArith | 02.calendar/calendar.rb:30 | Saturday is the last column; the day after starts again at column 0 |
| Calendar.NoDays | 02.calendar/calendar.rb:29 | zero days write nothing and leave the column at w |
| Calendar.DayNewlines | 02.calendar/calendar.rb:29-35 | the days hold one line break per Saturday among them, (w + n) div 7 |
| Calendar.LineCount | 02.calendar/calendar.rb:38-41 | the calendar has two header lines plus one line per week the month touches, ceil((w + n) / 7) |
| Calendar.CalendarNewlines | 02.calendar/calendar.rb:38-41 | the output holds 2 + ceil((w + n) / 7) newlines |
| Calendar.HeaderNewlines | 02.calendar/calendar.rb:10-13 | the header holds two newlines |
| Calendar.WeeksTouched | 02.calendar/calendar.rb:41 | the full weeks plus one for an unfinished last week make ceil(x / 7) |
| Calendar.EndsWithOneNewline | 02.calendar/calendar.rb:28-41 | the output ends with the last day's cell and exactly one newline, whether or not the last day is a Saturday |
| Calendar.Suffix | 02.calendar/calendar.rb:28-41 | exactly one of the day's `puts` and the final `puts` ends the last line |
| Calendar.StartsWithHeader | 02.calendar/calendar.rb:10-13 | the output begins with the two header lines |
| Calendar.UnbrokenShape | 02.calendar/calendar.rb:28-36 | taking the line breaks out of a text leaves none and removes exactly as many characters as there were breaks |
| Calendar.UnbrokenAppend | 02.calendar/calendar.rb:28-36 | line breaks are taken out part by part |
| Calendar.UnbrokenKeeps | 02.calendar/calendar.rb:33 | a text without line breaks is unchanged |
| Calendar.CellsLength | 02.calendar/calendar.rb:29-35 | the cells of days 1 to n take 3n characters |
| Calendar.CellsAt | 02.calendar/calendar.rb:29-35 | cell d occupies the d-th three-character slot of the cells of days 1 to n |
| Calendar.UnbrokenCell | 02.calendar/calendar.rb:30-34 | whether a day's cell is written by `puts` or by `print`, without the line break it is the cell |
| Calendar.UnbrokenDays | 02.calendar/calendar.rb:28-36 | without line breaks, the days written after the blanks are the cells of days 1 to n side by side |
| Calendar.DaysInOrder | 02.calendar/calendar.rb:16-36 | without line breaks, the output after the header is the w blank cells, then for each day d from 1 to n exactly cell d in slot w + d - 1; so every day appears once, in increasing order, as its number right-aligned in three characters (`Calendar.CellShape`) |
| Calendar.SlotsAfter | 02.calendar/calendar.rb:28-36 | the same after any prefix of w cells' width without line breaks |
| Calendar.SlotOfDay | 02.calendar/calendar.rb:29-35 | after any prefix, day d fills the d-th three-character slot of the cells |

## Left out

- Option parsing and help text are not modelled. This covers `AppOption`, `OptionParser`, `ARGV`, `getopts`, and the year and month defaults taken from today's date. The flags, and the year and month, are parameters.
- Directory enumeration and `File::Stat` are filesystem input. An entry is a name with a record of type, mode, link count, uid, gid, size and mtime, and the listing takes a sequence of entries in enumeration order.
- `ls -l` prints mtime through `Time#to_s`. Time formatting is not modelled: mtime is an opaque integer, compared as an integer and printed as decimal digits.
- Reading files and standard input is I/O, as is the `File.pipe?`/`File.select` check of `standard_input?`. File contents and the lines of standard input are parameters. The choice in `Wc#execute` between arguments, standard input and doing nothing becomes the caller's choice of `WcResult`.
- `print_wc_result` tells its two result shapes apart with `results[0][0].instance_of?`. The model replaces this with the tagged variant `WcResult`.
- Ruby `Date` is a library. The weekday of the 1st (0 for Sunday) and the number of days in the month are parameters, so calendar arithmetic such as the Julian dates before 1582 is not modelled.
- Ls.FilePermission: requires at least nine binary digits. Ruby raises on a shorter string, because `slice(-9, ..)` returns nil. Ls.LongRow, Ls.LongInfoFile, Ls.ParseLongOption, Ls.Rows and Ls.ParseOptions accordingly require modes of at least 256 in long mode. Every real file mode has them.
- Ls.FieldCmp: Ruby's `<=>` between a number and a string gives nil, and `sort` then raises. The model orders numbers before strings. This case cannot arise, because all rows of one listing have the same shape.
- Ordering.SortBy: Ruby's `sort` is not stable and leaves the order of ties unspecified. The model sorts by insertion. For the default order, `Ordering.SortedUnique` shows that no tie ever matters. With `-r -l`, two entries of the same shown name would tie, and the model fixes their order.
- Wc.PrintWcResult: requires a non-empty row list for file results. The script reaches that branch only with at least one argument, and `results[0][0]` would raise on an empty list.
- Text.Digits: only bases 2 and 10, the two the scripts use.
- Strings are sequences of characters. `String#size`, and hence the standard-input "bytes" column, counts characters. `File#size` is modelled as the UTF-8 length of the content, and invalid encodings are not modelled.
- Calendar.PrintDay, Calendar.PrintSpace and Calendar.PrintCalendar: require the weekday of the 1st to be at most 6. The layout lemmas also require at most 99 days, which every real month satisfies.
- Ls.IsHidden: follows Ruby's line-anchored `^`, so a name with a period after an embedded newline also counts as hidden. `gsub(/^:/, '')` is modelled in the same line-anchored way.
