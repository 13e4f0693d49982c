/**
 * The AngelCode BMFont text format as the font loader reads it. The file is cut into lines at
 * '\n' (`std::getline`), each line is read word by word (`istream >> std::string`), the first
 * word names the line and every further word is a `key=value` pair whose value is converted
 * with `istream >> int`. The stream rules that shape the result are kept:
 *  - a word extraction that finds no word leaves the target string as it was, so the name of a
 *    blank line is whatever word was read last;
 *  - a line that ends in whitespace makes its loop run once more on the last word read;
 *  - an empty value leaves the field as it was, a value that does not start with a number
 *    stores 0, and an out-of-range number is clamped into the `int` range.
 */
module FontParse {
  import opened Ints
  import opened Wrappers

  /** `char_descriptor`: one glyph's atlas rectangle, drawing offsets, pen advance and page. */
  datatype CharDescriptor = CharDescriptor(x: int32, y: int32, width: int32, height: int32,
                                           xOffset: int32, yOffset: int32, xAdvance: int32, page: int32)

  /** What the default constructor of `char_descriptor` holds. */
  const NO_CHAR: CharDescriptor := CharDescriptor(0, 0, 0, 0, 0, 0, 0, 0)

  /** `kerning_info`: the extra advance between one ordered pair of characters. */
  datatype KerningInfo = KerningInfo(first: int32, second: int32, amount: int32)

  const NO_KERNING: KerningInfo := KerningInfo(0, 0, 0)

  /** The six fields a `common` line sets. */
  datatype Common = Common(lineHeight: int32, base: int32, width: int32, height: int32, pages: int32, outline: int32)

  /** Every member of the font the parser writes. */
  datatype FontData = FontData(common: Common, kernCount: int32, chars: map<int, CharDescriptor>,
                       kern: seq<KerningInfo>, texturePath: seq<string>)

  // ---------------------------------------------------------------- searching

  /** `find`: the first position of `c`, or no position (`npos`). */
  function Find(s: string, c: char): (r: Option<nat>)
    ensures r.Some? ==> r.value < |s| && s[r.value] == c && c !in s[..r.value]
    ensures r.None? ==> c !in s
    decreases |s|
  {
    if s == [] then None
    else if s[0] == c then Some(0)
    else
      match Find(s[1..], c)
      case None => None
      case Some(i) =>
        assert s[..i + 1] == [s[0]] + s[1..][..i];
        Some(i + 1)
  }

  /** `find_last_of` for one character: its last position, or no position. */
  function FindLast(s: string, c: char): (r: Option<nat>)
    ensures r.Some? ==> r.value < |s| && s[r.value] == c && c !in s[r.value + 1..]
    ensures r.None? ==> c !in s
    decreases |s|
  {
    if s == [] then None
    else if s[|s| - 1] == c then Some(|s| - 1)
    else
      var r := FindLast(s[..|s| - 1], c);
      assert r.Some? ==> s[r.value + 1..] == s[..|s| - 1][r.value + 1..] + [s[|s| - 1]];
      assert s == s[..|s| - 1] + [s[|s| - 1]];
      r
  }

  // ---------------------------------------------------------------- lines

  /** The lines `std::getline` delivers one by one until the end of the data: always at least one. */
  function Lines(data: string): (r: seq<string>)
    ensures |r| >= 1
    decreases |data|
  {
    match Find(data, '\n')
    case None => [data]
    case Some(i) => [data[..i]] + Lines(data[i + 1..])
  }

  /** The lines put back together, a '\n' between each two. */
  function Joined(lines: seq<string>): string
    requires |lines| >= 1
    decreases |lines|
  {
    if |lines| == 1 then lines[0] else lines[0] + "\n" + Joined(lines[1..])
  }

  /** Cutting the data into lines loses nothing, and no line holds a line break. */
  lemma {:induction false} LinesJoin(data: string)
    ensures Joined(Lines(data)) == data
    ensures forall k :: 0 <= k < |Lines(data)| ==> '\n' !in Lines(data)[k]
    decreases |data|
  {
    match Find(data, '\n')
    case None =>
    case Some(i) =>
      LinesJoin(data[i + 1..]);
      assert Lines(data)[1..] == Lines(data[i + 1..]);
      assert data == data[..i] + "\n" + data[i + 1..];
  }

  /** Conversely, lines without line breaks are exactly the lines of their joining. */
  lemma {:induction false} JoinLines(lines: seq<string>)
    requires |lines| >= 1
    requires forall k :: 0 <= k < |lines| ==> '\n' !in lines[k]
    ensures Lines(Joined(lines)) == lines
    decreases |lines|
  {
    if |lines| > 1 {
      JoinLines(lines[1..]);
      LinesCons(lines[0], Joined(lines[1..]));
      assert lines == [lines[0]] + lines[1..];
    } else {
      assert Find(lines[0], '\n') == None;
    }
  }

  /** A line without a break, a break, then more: the first line is that line. */
  lemma LinesCons(head: string, rest: string)
    requires '\n' !in head
    ensures Lines(head + "\n" + rest) == [head] + Lines(rest)
  {
    var data := head + "\n" + rest;
    assert data == head + ("\n" + rest);
    FindAfter(head, "\n" + rest, '\n');
    assert data[..|head|] == head;
    assert data[|head| + 1..] == rest;
  }

  /** A search for a character absent from a prefix lands on the following part. */
  lemma {:induction false} FindAfter(a: string, b: string, c: char)
    requires c !in a && b != [] && b[0] == c
    ensures Find(a + b, c) == Some(|a|)
    decreases |a|
  {
    if a != [] {
      assert (a + b)[1..] == a[1..] + b;
      FindAfter(a[1..], b, c);
    }
  }

  // ---------------------------------------------------------------- words

  /** The whitespace of the C locale: space, tab, line feed, vertical tab, form feed, carriage return. */
  predicate IsSpace(c: char) {
    c == ' ' || '\t' <= c <= '\r'
  }

  /** What one extraction into a `std::string` can deliver: a non-empty run without whitespace. */
  predicate IsWord(w: string) {
    w != [] && forall k :: 0 <= k < |w| ==> !IsSpace(w[k])
  }

  /** The length of the run of non-whitespace at the front of `s`. */
  function WordLength(s: string): (n: nat)
    ensures n <= |s|
    ensures forall k :: 0 <= k < n ==> !IsSpace(s[k])
    ensures n < |s| ==> IsSpace(s[n])
    decreases |s|
  {
    if s == [] || IsSpace(s[0]) then 0 else 1 + WordLength(s[1..])
  }

  /** The words a line stream delivers, in order, whitespace skipped. */
  function Words(s: string): (r: seq<string>)
    ensures forall k :: 0 <= k < |r| ==> IsWord(r[k])
    decreases |s|
  {
    if s == [] then []
    else if IsSpace(s[0]) then Words(s[1..])
    else
      var n := WordLength(s);
      [s[..n]] + Words(s[n..])
  }

  /** Words written out with one space between each two. */
  function Spaced(ws: seq<string>): string
    decreases |ws|
  {
    if ws == [] then "" else if |ws| == 1 then ws[0] else ws[0] + " " + Spaced(ws[1..])
  }

  /** A word followed by nothing or by whitespace is read whole. */
  lemma {:induction false} WordLengthOf(w: string, rest: string)
    requires IsWord(w) && (rest == [] || IsSpace(rest[0]))
    ensures WordLength(w + rest) == |w|
    decreases |w|
  {
    assert (w + rest)[1..] == w[1..] + rest;
    if |w| > 1 {
      WordLengthOf(w[1..], rest);
    }
  }

  /** Reading back words written with single spaces gives the same words. */
  lemma {:induction false} WordsOfSpaced(ws: seq<string>)
    requires forall k :: 0 <= k < |ws| ==> IsWord(ws[k])
    ensures Words(Spaced(ws)) == ws
    decreases |ws|
  {
    if |ws| == 1 {
      WordLengthOf(ws[0], "");
      assert ws[0][..|ws[0]|] == ws[0];
      assert ws[0][|ws[0]|..] == "";
    } else if |ws| > 1 {
      var rest := " " + Spaced(ws[1..]);
      var s := ws[0] + rest;
      assert Spaced(ws) == s;
      WordLengthOf(ws[0], rest);
      assert s[..|ws[0]|] == ws[0];
      assert s[|ws[0]|..] == rest;
      assert rest[1..] == Spaced(ws[1..]);
      WordsOfSpaced(ws[1..]);
    }
  }

  /** What one line yields: the word the first extraction leaves in `Read`, and the words the
      line's loop then processes one by one. */
  datatype Scan = Scan(tag: string, items: seq<string>)

  /**
   * The first extraction sets the tag when the line has a word and otherwise leaves the previous
   * word. The loop runs while the line stream is not at its end: over the remaining words, plus
   * once more on the last word when whitespace follows it (the failed extraction keeps it).
   */
  function ScanLine(line: string, read: string): (r: Scan)
    ensures Words(line) == [] ==> r == Scan(read, [])
    ensures Words(line) != [] ==> r.tag == Words(line)[0]
  {
    var ws := Words(line);
    if ws == [] then Scan(read, [])
    else
      var trailing := IsSpace(line[|line| - 1]);
      Scan(ws[0], ws[1..] + (if trailing then [ws[|ws| - 1]] else []))
  }

  /** A line of words with single spaces is read as its first word and the rest. */
  lemma ScanSpaced(ws: seq<string>, read: string)
    requires |ws| >= 1 && forall k :: 0 <= k < |ws| ==> IsWord(ws[k])
    ensures ScanLine(Spaced(ws), read) == Scan(ws[0], ws[1..])
  {
    var s := Spaced(ws);
    WordsOfSpaced(ws);
    SpacedEnd(ws);
    ScanEnd(s, read);
  }

  /** One blank after the last word makes the line's loop read that word a second time. */
  lemma ScanSpacedBlank(ws: seq<string>, read: string)
    requires |ws| >= 1 && forall k :: 0 <= k < |ws| ==> IsWord(ws[k])
    ensures ScanLine(Spaced(ws) + " ", read) == Scan(ws[0], ws[1..] + [ws[|ws| - 1]])
  {
    var t := Spaced(ws) + " ";
    WordsOfSpaced(ws);
    WordsTrailingBlank(Spaced(ws));
    assert t[|t| - 1] == ' ';
    ScanEnd(t, read);
  }

  /** Whether a line with words ends in whitespace decides whether its last word is read twice. */
  lemma ScanEnd(line: string, read: string)
    requires Words(line) != []
    ensures var ws := Words(line);
            ScanLine(line, read) == Scan(ws[0], ws[1..] + (if IsSpace(line[|line| - 1]) then [ws[|ws| - 1]] else []))
  {
  }

  /** Single-spaced words end in the last word's last character, which is not whitespace. */
  lemma {:induction false} SpacedEnd(ws: seq<string>)
    requires |ws| >= 1 && forall k :: 0 <= k < |ws| ==> IsWord(ws[k])
    ensures |Spaced(ws)| >= 1 && !IsSpace(Spaced(ws)[|Spaced(ws)| - 1])
    decreases |ws|
  {
    if |ws| > 1 {
      SpacedEnd(ws[1..]);
      var rest := Spaced(ws[1..]);
      assert Spaced(ws) == (ws[0] + " ") + rest;
      assert Spaced(ws)[|Spaced(ws)| - 1] == rest[|rest| - 1];
    } else {
      assert IsWord(ws[0]);
    }
  }

  /** A trailing blank adds no word. */
  lemma {:induction false} WordsTrailingBlank(s: string)
    ensures Words(s + " ") == Words(s)
    decreases |s|
  {
    if s == [] {
      assert (s + " ")[1..] == [];
    } else if IsSpace(s[0]) {
      assert (s + " ")[1..] == s[1..] + " ";
      WordsTrailingBlank(s[1..]);
    } else {
      var n := WordLength(s);
      WordLengthBlank(s);
      assert (s + " ")[..n] == s[..n];
      assert (s + " ")[n..] == s[n..] + " ";
      WordsTrailingBlank(s[n..]);
    }
  }

  lemma {:induction false} WordLengthBlank(s: string)
    ensures WordLength(s + " ") == WordLength(s)
    decreases |s|
  {
    if s != [] {
      assert (s + " ")[1..] == s[1..] + " ";
      WordLengthBlank(s[1..]);
    }
  }

  // ---------------------------------------------------------------- key=value words

  /** The part before the first '=' (the whole word when there is none: `substr(0, npos)`). */
  function KeyOf(w: string): string {
    match Find(w, '=')
    case None => w
    case Some(i) => w[..i]
  }

  /** The part after the first '=' (the whole word when there is none: `npos + 1` wraps to 0). */
  function ValueOf(w: string): string {
    match Find(w, '=')
    case None => w
    case Some(i) => w[i + 1..]
  }

  /** A `key=value` word splits back into its key and its value, the value keeping any further '='. */
  lemma KeyValue(key: string, value: string)
    requires '=' !in key
    ensures KeyOf(key + "=" + value) == key && ValueOf(key + "=" + value) == value
  {
    assert key + "=" + value == key + ("=" + value);
    FindAfter(key, "=" + value, '=');
    assert (key + "=" + value)[..|key|] == key;
    assert (key + "=" + value)[|key| + 1..] == value;
  }

  /** A word with no '=' is both its own key and its own value. */
  lemma NoEquals(w: string)
    requires '=' !in w
    ensures KeyOf(w) == w && ValueOf(w) == w
  {
  }

  // ---------------------------------------------------------------- numbers

  predicate IsDigit(c: char) {
    '0' <= c <= '9'
  }

  function DigitValue(c: char): nat {
    if IsDigit(c) then c as int - '0' as int else 0
  }

  /** The length of the run of decimal digits at the front of `s`. */
  function DigitRun(s: string): (n: nat)
    ensures n <= |s| && forall k :: 0 <= k < n ==> IsDigit(s[k])
    ensures n < |s| ==> !IsDigit(s[n])
    decreases |s|
  {
    if s == [] || !IsDigit(s[0]) then 0 else 1 + DigitRun(s[1..])
  }

  /** The number a run of digits spells in base 10. */
  function DecimalValue(d: string): nat
    decreases |d|
  {
    if d == [] then 0 else DecimalValue(d[..|d| - 1]) * 10 + DigitValue(d[|d| - 1])
  }

  /** The number at the front of a value: an optional sign, then the digits up to the first
      non-digit; no digits at all read as 0. */
  function LeadingNumber(v: string): int {
    var signed := v != [] && (v[0] == '-' || v[0] == '+');
    var rest := if signed then v[1..] else v;
    var m: int := DecimalValue(rest[..DigitRun(rest)]);
    if v != [] && v[0] == '-' then -m else m
  }

  /** `Converter << Value; Converter >> field`: an empty value finds nothing and leaves the field,
      any other value stores its leading number clamped into the `int` range. */
  function ExtractInt(v: string, field: int32): int32 {
    if v == [] then field else ClampInt32(LeadingNumber(v))
  }

  /** `Converter << Value; Converter >> path`: the value is a single word, stored unless empty. */
  function ExtractWord(v: string, field: string): string {
    if v == [] then field else v
  }

  /** The base-10 digits of a natural number, most significant first. */
  function Digits(m: nat): (d: string)
    ensures |d| >= 1 && forall k :: 0 <= k < |d| ==> IsDigit(d[k])
    decreases m
  {
    (if m < 10 then "" else Digits(m / 10)) + [('0' as int + m % 10) as char]
  }

  /** An integer written in decimal, with a leading '-' when negative. */
  function Decimal(n: int): string {
    if n < 0 then "-" + Digits(-n) else Digits(n)
  }

  lemma {:induction false} DigitsValue(m: nat)
    ensures DecimalValue(Digits(m)) == m
    decreases m
  {
    var prefix := if m < 10 then "" else Digits(m / 10);
    var last := ('0' as int + m % 10) as char;
    var d := prefix + [last];
    assert Digits(m) == d;
    assert d[..|d| - 1] == prefix && d[|d| - 1] == last;
    assert DigitValue(last) == m % 10;
    assert DecimalValue(d) == DecimalValue(prefix) * 10 + m % 10;
    if m >= 10 {
      DigitsValue(m / 10);
      assert (m / 10) * 10 + m % 10 == m;
    }
  }

  lemma {:induction false} DigitRunAll(d: string)
    requires forall k :: 0 <= k < |d| ==> IsDigit(d[k])
    ensures DigitRun(d) == |d|
    decreases |d|
  {
    if d != [] {
      DigitRunAll(d[1..]);
    }
  }

  /** A run of digits, bare or after a '-', is read in full. */
  lemma LeadingDigits(d: string)
    requires d != [] && forall k :: 0 <= k < |d| ==> IsDigit(d[k])
    ensures LeadingNumber(d) == DecimalValue(d)
    ensures LeadingNumber("-" + d) == -(DecimalValue(d) as int)
  {
    DigitRunAll(d);
    assert d[..|d|] == d;
    assert ("-" + d)[1..] == d;
  }

  /** Reading a number back from its decimal form gives the number, for every `int`. */
  lemma ExtractDecimal(n: int32, field: int32)
    ensures ExtractInt(Decimal(n), field) == n
  {
    var m: int := if n < 0 then 0 - n as int else n as int;
    assert m >= 0;
    DigitsValue(m);
    LeadingDigits(Digits(m));
    assert LeadingNumber(Decimal(n)) == n;
  }

  /** An empty value extracts nothing: the field keeps what it held. */
  lemma ExtractEmptyKeeps(field: int32)
    ensures ExtractInt("", field) == field
  {
  }

  /** A run of digits too large for an `int` saturates: to `INT_MAX`, or to `INT_MIN` after a '-'. */
  lemma ExtractSaturates(d: string, field: int32)
    requires d != [] && (forall k :: 0 <= k < |d| ==> IsDigit(d[k])) && DecimalValue(d) > INT32_MAX
    ensures ExtractInt(d, field) == INT32_MAX && ExtractInt("-" + d, field) == INT32_MIN
  {
    LeadingDigits(d);
  }

  /** A value that starts with neither a sign nor a digit stores 0. */
  lemma ExtractNonNumeric(v: string, field: int32)
    requires v != [] && !IsDigit(v[0]) && v[0] != '-' && v[0] != '+'
    ensures ExtractInt(v, field) == 0
  {
  }

  // ---------------------------------------------------------------- one word of each line kind

  /** One word of a `common` line. */
  function CommonItem(c: Common, w: string): Common {
    var key, v := KeyOf(w), ValueOf(w);
    if key == "lineHeight" then c.(lineHeight := ExtractInt(v, c.lineHeight))
    else if key == "base" then c.(base := ExtractInt(v, c.base))
    else if key == "scaleW" then c.(width := ExtractInt(v, c.width))
    else if key == "scaleH" then c.(height := ExtractInt(v, c.height))
    else if key == "pages" then c.(pages := ExtractInt(v, c.pages))
    else if key == "outline" then c.(outline := ExtractInt(v, c.outline))
    else c
  }

  /** The locals of a `page` line: the page number and the raw file value. */
  datatype PageLine = PageLine(id: int32, path: string)

  function PageItem(p: PageLine, w: string): PageLine {
    var key, v := KeyOf(w), ValueOf(w);
    if key == "id" then p.(id := ExtractInt(v, p.id))
    else if key == "file" then p.(path := ExtractWord(v, p.path))
    else p
  }

  /** The locals of a `char` line: the character id and the descriptor being filled. */
  datatype CharLine = CharLine(id: int32, desc: CharDescriptor)

  function CharItem(c: CharLine, w: string): CharLine {
    var key, v := KeyOf(w), ValueOf(w);
    var d := c.desc;
    if key == "id" then c.(id := ExtractInt(v, c.id))
    else if key == "x" then c.(desc := d.(x := ExtractInt(v, d.x)))
    else if key == "y" then c.(desc := d.(y := ExtractInt(v, d.y)))
    else if key == "width" then c.(desc := d.(width := ExtractInt(v, d.width)))
    else if key == "height" then c.(desc := d.(height := ExtractInt(v, d.height)))
    else if key == "xoffset" then c.(desc := d.(xOffset := ExtractInt(v, d.xOffset)))
    else if key == "yoffset" then c.(desc := d.(yOffset := ExtractInt(v, d.yOffset)))
    else if key == "xadvance" then c.(desc := d.(xAdvance := ExtractInt(v, d.xAdvance)))
    else if key == "page" then c.(desc := d.(page := ExtractInt(v, d.page)))
    else c
  }

  function KerningsItem(count: int32, w: string): int32 {
    if KeyOf(w) == "count" then ExtractInt(ValueOf(w), count) else count
  }

  function KerningItem(k: KerningInfo, w: string): KerningInfo {
    var key, v := KeyOf(w), ValueOf(w);
    if key == "first" then k.(first := ExtractInt(v, k.first))
    else if key == "second" then k.(second := ExtractInt(v, k.second))
    else if key == "amount" then k.(amount := ExtractInt(v, k.amount))
    else k
  }

  // The words of a line applied in order (each fold is defined from the back).

  function CommonFold(c: Common, ws: seq<string>): Common
    decreases |ws|
  {
    if ws == [] then c else CommonItem(CommonFold(c, ws[..|ws| - 1]), ws[|ws| - 1])
  }

  function PageFold(p: PageLine, ws: seq<string>): PageLine
    decreases |ws|
  {
    if ws == [] then p else PageItem(PageFold(p, ws[..|ws| - 1]), ws[|ws| - 1])
  }

  function CharFold(c: CharLine, ws: seq<string>): CharLine
    decreases |ws|
  {
    if ws == [] then c else CharItem(CharFold(c, ws[..|ws| - 1]), ws[|ws| - 1])
  }

  function KerningsFold(count: int32, ws: seq<string>): int32
    decreases |ws|
  {
    if ws == [] then count else KerningsItem(KerningsFold(count, ws[..|ws| - 1]), ws[|ws| - 1])
  }

  function KerningFold(k: KerningInfo, ws: seq<string>): KerningInfo
    decreases |ws|
  {
    if ws == [] then k else KerningItem(KerningFold(k, ws[..|ws| - 1]), ws[|ws| - 1])
  }

  /** A descriptor field by the key that sets it; 0 for a key that sets none. */
  function CharField(d: CharDescriptor, key: string): int32 {
    if key == "x" then d.x
    else if key == "y" then d.y
    else if key == "width" then d.width
    else if key == "height" then d.height
    else if key == "xoffset" then d.xOffset
    else if key == "yoffset" then d.yOffset
    else if key == "xadvance" then d.xAdvance
    else if key == "page" then d.page
    else 0
  }

  /** A `char` line that does not mention a key keeps the value the previous `char` line left
      there, since the descriptor being filled is shared by all lines. */
  lemma {:induction false} CharFieldPersists(c: CharLine, ws: seq<string>, key: string)
    requires forall k :: 0 <= k < |ws| ==> KeyOf(ws[k]) != key
    ensures CharField(CharFold(c, ws).desc, key) == CharField(c.desc, key)
    decreases |ws|
  {
    if ws != [] {
      CharFieldPersists(c, ws[..|ws| - 1], key);
      CharItemKeepsField(CharFold(c, ws[..|ws| - 1]), ws[|ws| - 1], key);
    }
  }

  lemma CharItemKeepsField(c: CharLine, w: string, key: string)
    requires KeyOf(w) != key
    ensures CharField(CharItem(c, w).desc, key) == CharField(c.desc, key)
  {
    var d, e := c.desc, CharItem(c, w).desc;
    if key == "x" {
      assert e.x == d.x;
    } else if key == "y" {
      assert e.y == d.y;
    } else if key == "width" {
      assert e.width == d.width;
    } else if key == "height" {
      assert e.height == d.height;
    } else if key == "xoffset" {
      assert e.xOffset == d.xOffset;
    } else if key == "yoffset" {
      assert e.yOffset == d.yOffset;
    } else if key == "xadvance" {
      assert e.xAdvance == d.xAdvance;
    } else if key == "page" {
      assert e.page == d.page;
    }
  }

  /** A `char` line without an `id=` word files its descriptor under id 0. */
  lemma {:induction false} CharIdDefaultsToZero(ws: seq<string>, d: CharDescriptor)
    requires forall k :: 0 <= k < |ws| ==> KeyOf(ws[k]) != "id"
    ensures CharFold(CharLine(0, d), ws).id == 0
    decreases |ws|
  {
    if ws != [] {
      CharIdDefaultsToZero(ws[..|ws| - 1], d);
    }
  }

  // ---------------------------------------------------------------- page file names

  /** `std::string::npos`. */
  const NPOS: int := U64_MOD - 1

  /**
   * `path.substr(path.find_first_of('"') + 1, path.find_last_of('"') - 1)` in `size_t`
   * arithmetic: without a first quote the start wraps to 0, and without a last quote (or with
   * the last quote at position 0) the length wraps to more than the rest of the string.
   */
  function PagePath(path: string): (r: string) {
    var first := Find(path, '"');
    var last := FindLast(path, '"');
    var pos := if first.None? then 0 else first.value + 1;
    var count := if last.None? then NPOS - 1 else if last.value == 0 then NPOS else last.value - 1;
    var len := if count < |path| - pos then count else |path| - pos;
    path[pos..pos + len]
  }

  /** A quoted file name comes out without its quotes. */
  lemma QuotedPath(name: string)
    requires '"' !in name
    ensures PagePath("\"" + name + "\"") == name
  {
    var p := "\"" + name + "\"";
    assert Find(p, '"') == Some(0);
    assert p[..|p| - 1] == "\"" + name;
    assert FindLast(p[..|p| - 1], '"') == Some(0) by {
      assert p[..|p| - 1][1..] == name;
      FindLastMissing("\"", name, '"');
    }
    assert p[1..1 + |name|] == name;
  }

  lemma FindLastMissing(a: string, b: string, c: char)
    requires a != [] && a[|a| - 1] == c && c !in b
    ensures FindLast(a + b, c) == Some(|a| - 1)
    decreases |b|
  {
    if b != [] {
      assert (a + b)[..|a + b| - 1] == a + b[..|b| - 1];
      FindLastMissing(a, b[..|b| - 1], c);
    } else {
      assert a + b == a;
    }
  }

  /** A file name without quotes is kept whole. */
  lemma UnquotedPath(name: string)
    requires '"' !in name && |name| < NPOS
    ensures PagePath(name) == name
  {
  }

  // ---------------------------------------------------------------- whole lines and files

  /** The parser's state between lines: the last word read and the shared descriptor and
      kerning record (all locals of `parse_font` that outlive one line), and the font. */
  datatype Parser = Parser(read: string, font: FontData, c: CharDescriptor, k: KerningInfo)

  predicate IsKeyword(tag: string) {
    tag == "common" || tag == "page" || tag == "char" || tag == "kernings" || tag == "kerning"
  }

  /** The effect of one line. A line of another kind only sets `Read` to its first word. */
  function LineStep(p: Parser, line: string): (r: Parser) {
    var s := ScanLine(line, p.read);
    var f := p.font;
    if !IsKeyword(s.tag) then p.(read := s.tag)
    else
      var read := if s.items == [] then s.tag else s.items[|s.items| - 1];
      if s.tag == "common" then
        Parser(read, f.(common := CommonFold(f.common, s.items)), p.c, p.k)
      else if s.tag == "page" then
        var path := PagePath(PageFold(PageLine(0, ""), s.items).path);
        Parser(read, f.(texturePath := f.texturePath + (if path == [] then [] else [path])), p.c, p.k)
      else if s.tag == "char" then
        var cl := CharFold(CharLine(0, p.c), s.items);
        var chars := if cl.id in f.chars then f.chars else f.chars[cl.id := cl.desc];
        Parser(read, f.(chars := chars), cl.desc, p.k)
      else if s.tag == "kernings" then
        Parser(read, f.(kernCount := KerningsFold(f.kernCount, s.items)), p.c, p.k)
      else
        var k := KerningFold(p.k, s.items);
        Parser(read, f.(kern := f.kern + [k]), p.c, k)
  }

  /** The lines applied in order. */
  function Parse(p: Parser, lines: seq<string>): Parser
    decreases |lines|
  {
    if lines == [] then p else LineStep(Parse(p, lines[..|lines| - 1]), lines[|lines| - 1])
  }

  /** The lines up to `n + 1` are those up to `n`, then line `n`. */
  lemma ParseSnoc(p: Parser, lines: seq<string>, n: nat, before: Parser)
    requires n < |lines| && before == Parse(p, lines[..n])
    ensures Parse(p, lines[..n + 1]) == LineStep(before, lines[n])
  {
    assert lines[..n + 1][..n] == lines[..n];
  }

  /** What `parse_font` starts from: nothing read yet, default descriptor and kerning record. */
  function Start(f: FontData): Parser {
    Parser("", f, NO_CHAR, NO_KERNING)
  }

  /** A line never changes or removes a character already filed: `map::insert` does not overwrite. */
  lemma LineKeepsChars(p: Parser, line: string)
    ensures forall id :: id in p.font.chars ==>
              id in LineStep(p, line).font.chars && LineStep(p, line).font.chars[id] == p.font.chars[id]
  {
  }

  /** A `char` line files its descriptor under its id unless that id is already present. */
  lemma CharLineFiles(p: Parser, line: string)
    requires ScanLine(line, p.read).tag == "char"
    ensures var cl := CharFold(CharLine(0, p.c), ScanLine(line, p.read).items);
            cl.id in LineStep(p, line).font.chars
            && (cl.id !in p.font.chars ==> LineStep(p, line).font.chars[cl.id] == cl.desc)
  {
  }

  /** A kerning line appends exactly one record, any other line none; earlier records stay. */
  lemma LineAppendsKerning(p: Parser, line: string)
    ensures var r := LineStep(p, line);
            if ScanLine(line, p.read).tag == "kerning"
            then r.font.kern == p.font.kern + [r.k]
            else r.font.kern == p.font.kern
  {
  }

  /** Only `page` lines add texture paths, one each at most, and never an empty one. */
  lemma LineAddsPath(p: Parser, line: string)
    ensures var r := LineStep(p, line);
            |p.font.texturePath| <= |r.font.texturePath| <= |p.font.texturePath| + 1
            && r.font.texturePath[..|p.font.texturePath|] == p.font.texturePath
            && (|r.font.texturePath| > |p.font.texturePath| ==>
                  (ScanLine(line, p.read).tag == "page" && r.font.texturePath[|p.font.texturePath|] != []))
  {
  }

  /** A blank line re-reads the previous line's last word as its name: when that word names no
      line kind, the line changes nothing. */
  lemma BlankLine(p: Parser, line: string)
    requires Words(line) == [] && !IsKeyword(p.read)
    ensures LineStep(p, line) == p
  {
  }

  /** Applying two runs of lines one after the other is applying their concatenation. */
  lemma {:induction false} ParseAppend(p: Parser, a: seq<string>, b: seq<string>)
    ensures Parse(p, a + b) == Parse(Parse(p, a), b)
    decreases |b|
  {
    if b == [] {
      assert a + b == a;
    } else {
      assert (a + b)[..|a + b| - 1] == a + b[..|b| - 1];
      ParseAppend(p, a, b[..|b| - 1]);
    }
  }

  /** Over a whole file, characters once filed keep their descriptors, and the kerning records
      and texture paths only grow at the end. */
  lemma {:induction false} ParseGrows(p: Parser, lines: seq<string>)
    ensures var r := Parse(p, lines).font;
            (forall id :: id in p.font.chars ==> id in r.chars && r.chars[id] == p.font.chars[id])
            && |p.font.kern| <= |r.kern| && r.kern[..|p.font.kern|] == p.font.kern
            && |p.font.texturePath| <= |r.texturePath| && r.texturePath[..|p.font.texturePath|] == p.font.texturePath
    decreases |lines|
  {
    if lines != [] {
      var q := Parse(p, lines[..|lines| - 1]);
      ParseGrows(p, lines[..|lines| - 1]);
      LineKeepsChars(q, lines[|lines| - 1]);
      LineAppendsKerning(q, lines[|lines| - 1]);
      LineAddsPath(q, lines[|lines| - 1]);
      var r := LineStep(q, lines[|lines| - 1]).font;
      assert r.kern[..|p.font.kern|] == q.font.kern[..|p.font.kern|];
      assert r.texturePath[..|p.font.texturePath|] == q.font.texturePath[..|p.font.texturePath|];
    }
  }

  // ---------------------------------------------------------------- lines as BMFont writes them

  /** A `key=value` word with a decimal value. */
  function Assignment(key: string, n: int): string {
    key + "=" + Decimal(n)
  }

  lemma DecimalIsWord(n: int)
    ensures IsWord(Decimal(n)) && '=' !in Decimal(n)
  {
    var m: nat := if n < 0 then 0 - n as int else n as int;
    var d := Digits(m);
    assert forall k :: 0 <= k < |d| ==> IsDigit(d[k]);
    if n < 0 {
      assert forall k :: 1 <= k < |Decimal(n)| ==> Decimal(n)[k] == d[k - 1];
    }
  }

  /** Two words written together are one word. */
  lemma WordConcat(a: string, b: string)
    requires IsWord(a) && IsWord(b)
    ensures IsWord(a + b)
  {
    assert forall k :: 0 <= k < |a + b| ==> (a + b)[k] == if k < |a| then a[k] else b[k - |a|];
  }

  lemma AssignmentIsWord(key: string, n: int)
    requires IsWord(key)
    ensures IsWord(Assignment(key, n))
  {
    DecimalIsWord(n);
    WordConcat(key, "=");
    WordConcat(key + "=", Decimal(n));
  }

  /** An assignment is one word, and reading it sets the named field to the number. */
  lemma ReadAssignment(key: string, n: int32, field: int32)
    requires IsWord(key) && '=' !in key
    ensures IsWord(Assignment(key, n))
    ensures KeyOf(Assignment(key, n)) == key && ExtractInt(ValueOf(Assignment(key, n)), field) == n
  {
    DecimalIsWord(n);
    WordConcat(key, "=");
    WordConcat(key + "=", Decimal(n));
    KeyValue(key, Decimal(n));
    ExtractDecimal(n, field);
  }

  lemma ReadFirst(k: KerningInfo, n: int32)
    ensures KerningItem(k, Assignment("first", n)) == k.(first := n)
  {
    ReadAssignment("first", n, k.first);
  }

  lemma ReadSecond(k: KerningInfo, n: int32)
    ensures KerningItem(k, Assignment("second", n)) == k.(second := n)
  {
    ReadAssignment("second", n, k.second);
  }

  lemma ReadAmount(k: KerningInfo, n: int32)
    ensures KerningItem(k, Assignment("amount", n)) == k.(amount := n)
  {
    ReadAssignment("amount", n, k.amount);
  }

  /** The three assignments of a kerning record, read in order, give that record. */
  lemma ReadKerning(k: KerningInfo, r: KerningInfo)
    ensures KerningFold(k, [Assignment("first", r.first), Assignment("second", r.second), Assignment("amount", r.amount)]) == r
  {
    var w1, w2, w3 := Assignment("first", r.first), Assignment("second", r.second), Assignment("amount", r.amount);
    ReadFirst(k, r.first);
    var k1 := k.(first := r.first);
    ReadSecond(k1, r.second);
    var k2 := k1.(second := r.second);
    ReadAmount(k2, r.amount);
    var ws := [w1, w2, w3];
    assert ws[..2] == [w1, w2] && ws[..2][..1] == [w1] && ws[..2][..1][..0] == [];
    assert KerningFold(k, [w1]) == k1;
    assert KerningFold(k, [w1, w2]) == k2;
  }

  /** The line names and keys used below are words without '='. */
  lemma KeysAreWords()
    ensures IsWord("kerning") && IsWord("first") && IsWord("second") && IsWord("amount")
    ensures '=' !in "first" && '=' !in "second" && '=' !in "amount"
    ensures IsWord("page") && IsWord("id") && '=' !in "id" && IsWord("file=\"") && IsWord("\"")
  {
  }

  /** A `kerning` line as BMFont writes it is read back as the record it describes, appended
      after the records before it, whatever an earlier line left in the shared record. */
  lemma KerningLineRoundTrip(p: Parser, r: KerningInfo)
    ensures var line := Spaced(["kerning", Assignment("first", r.first), Assignment("second", r.second),
                                Assignment("amount", r.amount)]);
            LineStep(p, line).font.kern == p.font.kern + [r]
  {
    var items := [Assignment("first", r.first), Assignment("second", r.second), Assignment("amount", r.amount)];
    var ws := ["kerning"] + items;
    KeysAreWords();
    AssignmentIsWord("first", r.first);
    AssignmentIsWord("second", r.second);
    AssignmentIsWord("amount", r.amount);
    ScanSpaced(ws, p.read);
    assert ws[1..] == items;
    ReadKerning(p.k, r);
    KerningLineAppends(p, Spaced(ws), items);
  }

  lemma KerningLineAppends(p: Parser, line: string, items: seq<string>)
    requires ScanLine(line, p.read) == Scan("kerning", items)
    ensures LineStep(p, line).font.kern == p.font.kern + [KerningFold(p.k, items)]
  {
  }

  lemma PageLineAdds(p: Parser, line: string, items: seq<string>)
    requires ScanLine(line, p.read) == Scan("page", items)
    ensures var path := PagePath(PageFold(PageLine(0, ""), items).path);
            LineStep(p, line).font.texturePath == p.font.texturePath + (if path == [] then [] else [path])
  {
  }

  lemma ReadId(pl: PageLine, n: int32)
    ensures PageItem(pl, Assignment("id", n)) == pl.(id := n)
  {
    ReadAssignment("id", n, pl.id);
  }

  lemma ReadFile(pl: PageLine, quoted: string)
    requires quoted != []
    ensures PageItem(pl, "file=" + quoted) == pl.(path := quoted)
  {
    assert "file=" + quoted == "file" + "=" + quoted;
    KeyValue("file", quoted);
  }

  /** The assignments of a page line, read in order, leave its raw file value. */
  lemma ReadPage(id: int32, quoted: string)
    requires quoted != []
    ensures PageFold(PageLine(0, ""), [Assignment("id", id), "file=" + quoted]).path == quoted
  {
    var w1, w2 := Assignment("id", id), "file=" + quoted;
    ReadId(PageLine(0, ""), id);
    ReadFile(PageLine(id, ""), quoted);
    assert [w1, w2][..1] == [w1] && [w1][..0] == [];
    assert PageFold(PageLine(0, ""), [w1]) == PageLine(id, "");
  }

  /** A `page` line as BMFont writes it adds its file name, without the quotes, to the texture paths. */
  lemma PageLineRoundTrip(p: Parser, id: int32, name: string)
    requires IsWord(name) && '"' !in name
    ensures var line := Spaced(["page", Assignment("id", id), "file=\"" + name + "\""]);
            LineStep(p, line).font.texturePath == p.font.texturePath + [name]
  {
    var quoted := "\"" + name + "\"";
    assert "file=\"" + name + "\"" == "file=" + quoted;
    KeysAreWords();
    AssignmentIsWord("id", id);
    WordConcat("file=\"", name);
    WordConcat("file=\"" + name, "\"");
    var items := [Assignment("id", id), "file=" + quoted];
    var ws := ["page"] + items;
    ScanSpaced(ws, p.read);
    assert ws[1..] == items;
    ReadPage(id, quoted);
    QuotedPath(name);
    PageLineAdds(p, Spaced(ws), items);
  }
}
