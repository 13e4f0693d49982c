/**
 * The bitmap font: the state `load` builds from a BMFont text file and the text layout
 * `set_text` uploads. Character ids, kerning pairs and the text are looked up by the value of a
 * C++ `char`, which is signed, so a byte of 128 or more reads as a negative id. Pen positions
 * are kept as integers: every quantity summed into them is an `int` field of the font.
 */
module BitmapFont {
  import opened Ints
  import opened FontParse
  import opened Wrappers

  // ---------------------------------------------------------------- kerning

  /** Whether a kerning record is the one for the ordered pair `(first, second)`. */
  predicate Matches(k: KerningInfo, first: int, second: int) {
    k.first == first && k.second == second
  }

  /** The amount of the first record for the pair, or 0 when there is none. */
  function PairAmount(kern: seq<KerningInfo>, first: int, second: int): (r: int32)
    ensures forall j :: (0 <= j < |kern| && Matches(kern[j], first, second)
                         && (forall i :: 0 <= i < j ==> !Matches(kern[i], first, second))) ==> r == kern[j].amount
    ensures (forall j :: 0 <= j < |kern| ==> !Matches(kern[j], first, second)) ==> r == 0
    decreases |kern|
  {
    if kern == [] then 0
    else if Matches(kern[0], first, second) then kern[0].amount
    else
      var r := PairAmount(kern[1..], first, second);
      assert forall j :: 1 <= j < |kern| ==> kern[1..][j - 1] == kern[j];
      r
  }

  /** `get_kerning_pair`: only the first `count` records are searched, none when `count` is not positive. */
  function KerningAmount(kern: seq<KerningInfo>, count: int, first: int, second: int): int32
    requires count <= |kern|
  {
    if count <= 0 then 0 else PairAmount(kern[..count], first, second)
  }

  /** With a count of zero no pair is ever kerned. */
  lemma NoCountNoKerning(kern: seq<KerningInfo>, first: int, second: int)
    ensures KerningAmount(kern, 0, first, second) == 0
  {
  }

  /** Records past the count are never consulted. */
  lemma PastCountIgnored(kern: seq<KerningInfo>, more: seq<KerningInfo>, count: int, first: int, second: int)
    requires count <= |kern|
    ensures KerningAmount(kern + more, count, first, second) == KerningAmount(kern, count, first, second)
  {
    if count > 0 {
      assert (kern + more)[..count] == kern[..count];
    }
  }

  // ---------------------------------------------------------------- characters

  /**
   * The value of a `char` converted to `int`: bytes of 128 and up are negative. The model's
   * strings stand for the source's byte strings, so every character is meant to be below 256; a
   * larger one is taken by its low byte.
   */
  function CharCode(c: char): (r: int)
    ensures -128 <= r < 128
    ensures c as int < 128 ==> r == c as int
    ensures 128 <= c as int < 256 ==> r == c as int - 256
  {
    var b := c as int % 256;
    if b < 128 then b else b - 256
  }

  /** `Chars[id]` as a value: the stored descriptor, or a default one for an id never filed. */
  function GlyphOf(chars: map<int, CharDescriptor>, id: int): CharDescriptor {
    if id in chars then chars[id] else NO_CHAR
  }

  /** The map after `Chars[id]` for each id in turn: each missing id gains a default entry. */
  function Touched(chars: map<int, CharDescriptor>, ids: seq<int>): (r: map<int, CharDescriptor>)
    decreases |ids|
  {
    if ids == [] then chars
    else
      var m := Touched(chars, ids[..|ids| - 1]);
      var id := ids[|ids| - 1];
      if id in m then m else m[id := NO_CHAR]
  }

  /** Those inserted defaults are invisible to later lookups, and nothing already filed changes. */
  lemma {:induction false} TouchedLooksTheSame(chars: map<int, CharDescriptor>, ids: seq<int>, id: int)
    ensures GlyphOf(Touched(chars, ids), id) == GlyphOf(chars, id)
    ensures id in chars ==> id in Touched(chars, ids) && Touched(chars, ids)[id] == chars[id]
    ensures id in Touched(chars, ids) <==> id in chars || id in ids
    decreases |ids|
  {
    if ids != [] {
      TouchedLooksTheSame(chars, ids[..|ids| - 1], id);
      assert ids == ids[..|ids| - 1] + [ids[|ids| - 1]];
    }
  }

  /** Looking up one more id is one more step of `Touched`. */
  lemma TouchedStep(chars: map<int, CharDescriptor>, ids: seq<int>, id: int)
    ensures Touched(chars, ids + [id]) == Touched(Touched(chars, ids), [id])
  {
    assert (ids + [id])[..|ids|] == ids;
  }

  /** The `char` values of a text, in order. */
  function Codes(s: string): (r: seq<int>)
    ensures |r| == |s| && forall i :: 0 <= i < |s| ==> r[i] == CharCode(s[i])
    decreases |s|
  {
    if s == [] then [] else Codes(s[..|s| - 1]) + [CharCode(s[|s| - 1])]
  }

  // ---------------------------------------------------------------- the pen

  /** The character after position `i`; past the last one a `std::string` holds '\0'. */
  function NextCode(s: string, i: nat): int {
    if i + 1 < |s| then CharCode(s[i + 1]) else 0
  }

  /** The kerning past character `i` with the next one: none in a text of one character, and in
      a longer text the last character pairs with the terminating '\0'. */
  function KerningAfter(f: FontData, s: string, i: nat): int
    requires i < |s| && f.kernCount <= |f.kern|
  {
    if |s| > 1 then KerningAmount(f.kern, f.kernCount, CharCode(s[i]), NextCode(s, i)) else 0
  }

  /** How far the pen moves past character `i`: the kerning, then the character's own advance. */
  function Advance(f: FontData, s: string, i: nat): int
    requires i < |s| && f.kernCount <= |f.kern|
  {
    KerningAfter(f, s, i) + GlyphOf(f.chars, CharCode(s[i])).xAdvance
  }

  /** The advances of the first `n` characters added up. */
  function Width(f: FontData, s: string, n: nat): int
    requires n <= |s| && f.kernCount <= |f.kern|
    decreases n
  {
    if n == 0 then 0 else Width(f, s, n - 1) + Advance(f, s, n - 1)
  }

  /** The advances alone, as a font without kerning measures them. */
  function AdvanceSum(chars: map<int, CharDescriptor>, s: string): int
    decreases |s|
  {
    if s == [] then 0 else AdvanceSum(chars, s[..|s| - 1]) + GlyphOf(chars, CharCode(s[|s| - 1])).xAdvance
  }

  /** Without kerning records in use, a text is as wide as its characters' advances together. */
  lemma {:induction false} WidthWithoutKerning(f: FontData, s: string, n: nat)
    requires n <= |s| && f.kernCount == 0
    ensures Width(f, s, n) == AdvanceSum(f.chars, s[..n])
    decreases n
  {
    if n > 0 {
      WidthWithoutKerning(f, s, n - 1);
      assert s[..n][..n - 1] == s[..n - 1];
    }
  }

  /** A single character is never kerned, not even with the terminating '\0'. */
  lemma SingleCharacter(f: FontData, c: char)
    requires f.kernCount <= |f.kern|
    ensures Width(f, [c], 1) == GlyphOf(f.chars, CharCode(c)).xAdvance
  {
  }

  /** Where `set_text` puts the pen: its x and its line. */
  datatype Pen = Pen(x: int, line: int)

  /** The pen as character `i` is reached: at the start x is 0 and the line is -1. */
  function PenBefore(f: FontData, s: string, i: nat): Pen
    requires i <= |s| && f.kernCount <= |f.kern|
    decreases i, 0
  {
    if i == 0 then Pen(0, -1)
    else
      var p := PenAt(f, s, i - 1);
      Pen(p.x + Advance(f, s, i - 1), p.line)
  }

  /** The pen character `i` is drawn at: a line break returns x to 0 and moves to the next line. */
  function PenAt(f: FontData, s: string, i: nat): Pen
    requires i < |s| && f.kernCount <= |f.kern|
    decreases i, 1
  {
    var p := PenBefore(f, s, i);
    if s[i] == '\n' then Pen(0, p.line + 1) else p
  }

  /** The number of line breaks in a text. */
  function Breaks(s: string): nat
    decreases |s|
  {
    if s == [] then 0 else Breaks(s[..|s| - 1]) + (if s[|s| - 1] == '\n' then 1 else 0)
  }

  /** Character `i` is drawn on line -1 plus the number of line breaks up to and including it,
      and a line break itself is drawn at x = 0. */
  lemma {:induction false} PenLine(f: FontData, s: string, i: nat)
    requires i < |s| && f.kernCount <= |f.kern|
    ensures PenAt(f, s, i).line == Breaks(s[..i + 1]) - 1
    ensures s[i] == '\n' ==> PenAt(f, s, i).x == 0
    decreases i
  {
    assert s[..i + 1][..i] == s[..i];
    if i > 0 {
      PenLine(f, s, i - 1);
    }
  }

  /** On the first line the pen stands at the width of the text before it, so a text without
      line breaks ends exactly where `get_string_width` measures it. */
  lemma {:induction false} PenOnFirstLine(f: FontData, s: string, i: nat)
    requires i <= |s| && f.kernCount <= |f.kern|
    requires forall k :: 0 <= k < i ==> s[k] != '\n'
    ensures PenBefore(f, s, i) == Pen(Width(f, s, i), -1)
    decreases i
  {
    if i > 0 {
      PenOnFirstLine(f, s, i - 1);
    }
  }

  // ---------------------------------------------------------------- the uploaded mesh

  /** One character's quad: the pen it is drawn at and its descriptor. Its four vertices in
      `texlst[4 i .. 4 i + 3]` are float functions of these. */
  datatype Quad = Quad(x: int, line: int, glyph: CharDescriptor)

  /** The quads of a whole text, in order. */
  function Layout(f: FontData, s: string): seq<Quad>
    requires f.kernCount <= |f.kern|
  {
    seq(|s|, i requires 0 <= i < |s| => Quad(PenAt(f, s, i).x, PenAt(f, s, i).line, GlyphOf(f.chars, CharCode(s[i]))))
  }

  /** The first `n` of `text.len()` slots hold their quads. */
  ghost predicate PlacedUpTo(f: FontData, text: string, quads: seq<Quad>, n: nat)
    requires f.kernCount <= |f.kern| && n <= |text|
  {
    |quads| == |text| && forall k :: 0 <= k < n ==> quads[k] == Layout(f, text)[k]
  }

  /** Storing quad `n` in its slot extends the placed prefix by one. */
  lemma PlacedStep(f: FontData, text: string, quads: seq<Quad>, n: nat, q: Quad)
    requires f.kernCount <= |f.kern| && n < |text| && PlacedUpTo(f, text, quads, n)
    requires q == Quad(PenAt(f, text, n).x, PenAt(f, text, n).line, GlyphOf(f.chars, CharCode(text[n])))
    ensures PlacedUpTo(f, text, quads[n := q], n + 1)
  {
  }

  /** With every slot placed, the quads are the layout. */
  lemma PlacedAll(f: FontData, text: string, quads: seq<Quad>)
    requires f.kernCount <= |f.kern| && PlacedUpTo(f, text, quads, |text|)
    ensures quads == Layout(f, text)
  {
  }

  /** The two triangles of a quad, as offsets from its first vertex. */
  const QUAD_INDICES: seq<int> := [0, 2, 1, 1, 2, 3]

  /** The six `uint16_t` indices pushed for the quad whose first vertex is `base`. */
  function QuadOf(base: int): (r: seq<uint16>)
    ensures |r| == 6
  {
    [Wrap16(base), Wrap16(base + 2), Wrap16(base + 1), Wrap16(base + 1), Wrap16(base + 2), Wrap16(base + 3)]
  }

  /** The indices pushed for the first `n` characters: quad `i` uses vertices `4 i` to `4 i + 3`,
      each stored as a `uint16_t`. */
  function QuadIndices(n: nat): (r: seq<uint16>)
    ensures |r| == 6 * n
    decreases n
  {
    if n == 0 then [] else QuadIndices(n - 1) + QuadOf(4 * (n - 1))
  }

  /** Pushing quad `i`'s six indices after the first `i` quads gives the first `i + 1`. */
  lemma PushQuad(zeros: seq<uint16>, indices: seq<uint16>, i: nat)
    requires indices == zeros + QuadIndices(i)
    ensures indices + QuadOf(i * 4) == zeros + QuadIndices(i + 1)
  {
    assert QuadIndices(i + 1) == QuadIndices(i) + QuadOf(i * 4);
  }

  /** Index `6 i + j` belongs to quad `i`: its vertex `4 i + QUAD_INDICES[j]`, modulo 2^16. */
  lemma {:induction false} QuadIndex(n: nat, i: nat, j: nat)
    requires i < n && j < 6
    ensures QuadIndices(n)[6 * i + j] == (4 * i + QUAD_INDICES[j]) % U16_MOD
    decreases n
  {
    if i < n - 1 {
      QuadIndex(n - 1, i, j);
    }
  }

  /** A vector of `n` value-initialized indices. */
  function Zeros(n: nat): (r: seq<uint16>)
    ensures |r| == n && forall k :: 0 <= k < n ==> r[k] == 0
  {
    seq(n, _ => 0)
  }

  /** The index list `set_text` uploads for `n` characters: the `6 n` zeros the vector is created
      with, then the pushed triangles. */
  function Uploaded(n: nat): (r: seq<uint16>)
    ensures |r| == 12 * n
  {
    Zeros(6 * n) + QuadIndices(n)
  }

  /** The first half of the uploaded indices all name vertex 0, the second half the quads. */
  lemma UploadedShape(n: nat, k: nat)
    requires k < 12 * n
    ensures k < 6 * n ==> Uploaded(n)[k] == 0
    ensures k >= 6 * n ==> Uploaded(n)[k] == (4 * ((k - 6 * n) / 6) + QUAD_INDICES[(k - 6 * n) % 6]) % U16_MOD
  {
    if k >= 6 * n {
      var i, j := (k - 6 * n) / 6, (k - 6 * n) % 6;
      assert k - 6 * n == 6 * i + j;
      QuadIndex(n, i, j);
    }
  }

  // ---------------------------------------------------------------- the font object

  class Font {
    var empty: bool
    var kernCount: int32
    var currentText: string
    var common: Common
    var chars: map<int, CharDescriptor>
    var kern: seq<KerningInfo>
    var texturePath: seq<string>
    /** The file the texture was decoded from, once one is. */
    var texture: Option<string>
    /** What the dynamic vertex and index buffers last received. */
    var gpuQuads: seq<Quad>
    var gpuIndices: seq<uint16>

    /** The members the parser reads and writes, as one value. */
    ghost function Data(): FontData
      reads this`common, this`kernCount, this`chars, this`kern, this`texturePath
    {
      FontData(common, kernCount, chars, kern, texturePath)
    }

    /** `KernCount` never exceeds the records read: the constructor sets it to zero and `load`
        to the number of records, truncated to an `int`. */
    ghost predicate Valid()
      reads this`kernCount, this`kern
    {
      kernCount <= |kern|
    }

    /** The constructor sets `empty`, `KernCount` and the text and leaves the `common` fields
        uninitialized; `initial` stands for whatever they hold. */
    constructor (initial: Common)
      ensures empty && kernCount == 0 && currentText == "" && common == initial
      ensures chars == map[] && kern == [] && texturePath == [] && texture == None
      ensures gpuQuads == [] && gpuIndices == [] && Valid()
    {
      empty := true;
      kernCount := 0;
      currentText := "";
      common := initial;
      chars := map[];
      kern := [];
      texturePath := [];
      texture := None;
      gpuQuads := [];
      gpuIndices := [];
      new;
      SetText("");
    }

    /** `parse_font` over the file's contents, line by line; it always reports success. */
    method ParseFont(data: string) returns (ok: bool)
      modifies this`common, this`kernCount, this`chars, this`kern, this`texturePath
      ensures ok && Data() == Parse(Start(old(Data())), Lines(data)).font
    {
      var lines := Lines(data);
      var read, c, k := "", NO_CHAR, NO_KERNING;
      ghost var p0 := Start(Data());
      for n := 0 to |lines|
        invariant Parser(read, Data(), c, k) == Parse(p0, lines[..n])
      {
        ghost var before := Parser(read, Data(), c, k);
        read, c, k := ParseLine(lines[n], read, c, k);
        ParseSnoc(p0, lines, n, before);
      }
      assert lines[..|lines|] == lines;
      ok := true;
    }

    /** One line: its first word picks the loop that reads the rest. */
    method ParseLine(line: string, read0: string, c0: CharDescriptor, k0: KerningInfo)
      returns (read: string, c: CharDescriptor, k: KerningInfo)
      modifies this`common, this`kernCount, this`chars, this`kern, this`texturePath
      ensures Parser(read, Data(), c, k) == LineStep(Parser(read0, old(Data()), c0, k0), line)
    {
      var s := ScanLine(line, read0);
      read, c, k := s.tag, c0, k0;
      if s.tag == "common" {
        ParseCommon(s.items);
      } else if s.tag == "page" {
        ParsePage(s.items);
      } else if s.tag == "char" {
        c := ParseChar(s.items, c0);
      } else if s.tag == "kernings" {
        ParseKernings(s.items);
      } else if s.tag == "kerning" {
        k := ParseKerning(s.items, k0);
      }
      if IsKeyword(s.tag) && s.items != [] {
        read := s.items[|s.items| - 1];
      }
    }

    method ParseCommon(ws: seq<string>)
      modifies this`common
      ensures common == CommonFold(old(common), ws)
    {
      for j := 0 to |ws|
        invariant common == CommonFold(old(common), ws[..j])
      {
        assert ws[..j + 1][..j] == ws[..j];
        common := CommonItem(common, ws[j]);
      }
      assert ws[..|ws|] == ws;
    }

    /** A `page` line: its file name, unquoted, is added when it is not empty. */
    method ParsePage(ws: seq<string>)
      modifies this`texturePath
      ensures var path := PagePath(PageFold(PageLine(0, ""), ws).path);
              texturePath == old(texturePath) + (if path == [] then [] else [path])
    {
      var page: int32, path: string := 0, "";
      for j := 0 to |ws|
        invariant PageLine(page, path) == PageFold(PageLine(0, ""), ws[..j])
      {
        assert ws[..j + 1][..j] == ws[..j];
        var pl := PageItem(PageLine(page, path), ws[j]);
        page, path := pl.id, pl.path;
      }
      assert ws[..|ws|] == ws;
      path := PagePath(path);
      if path != [] {
        texturePath := texturePath + [path];
      }
    }

    /** A `char` line fills the shared descriptor and files it under its id unless that id is taken. */
    method ParseChar(ws: seq<string>, c0: CharDescriptor) returns (c: CharDescriptor)
      modifies this`chars
      ensures var cl := CharFold(CharLine(0, c0), ws);
              c == cl.desc && chars == (if cl.id in old(chars) then old(chars) else old(chars)[cl.id := cl.desc])
    {
      var id: int32 := 0;
      c := c0;
      for j := 0 to |ws|
        invariant CharLine(id, c) == CharFold(CharLine(0, c0), ws[..j])
      {
        assert ws[..j + 1][..j] == ws[..j];
        var cl := CharItem(CharLine(id, c), ws[j]);
        id, c := cl.id, cl.desc;
      }
      assert ws[..|ws|] == ws;
      if id !in chars {
        chars := chars[id := c];
      }
    }

    method ParseKernings(ws: seq<string>)
      modifies this`kernCount
      ensures kernCount == KerningsFold(old(kernCount), ws)
    {
      for j := 0 to |ws|
        invariant kernCount == KerningsFold(old(kernCount), ws[..j])
      {
        assert ws[..j + 1][..j] == ws[..j];
        kernCount := KerningsItem(kernCount, ws[j]);
      }
      assert ws[..|ws|] == ws;
    }

    /** A `kerning` line fills the shared record and appends it. */
    method ParseKerning(ws: seq<string>, k0: KerningInfo) returns (k: KerningInfo)
      modifies this`kern
      ensures k == KerningFold(k0, ws) && kern == old(kern) + [k]
    {
      k := k0;
      for j := 0 to |ws|
        invariant k == KerningFold(k0, ws[..j])
      {
        assert ws[..j + 1][..j] == ws[..j];
        k := KerningItem(k, ws[j]);
      }
      assert ws[..|ws|] == ws;
      kern := kern + [k];
    }

    /** `get_kerning_pair`: the amount of the first of the first `KernCount` records for the pair. */
    method KerningPair(first: int, second: int) returns (amount: int32)
      requires Valid()
      ensures amount == KerningAmount(kern, kernCount, first, second)
    {
      if kernCount != 0 {
        var j := 0;
        while j < kernCount
          invariant 0 <= j <= |kern| && (j > 0 ==> j <= kernCount)
          invariant forall i :: 0 <= i < j ==> !Matches(kern[i], first, second)
        {
          if kern[j].first == first && kern[j].second == second {
            assert Matches(kern[..kernCount][j], first, second);
            return kern[j].amount;
          }
          j := j + 1;
        }
      }
      return 0;
    }

    /**
     * `get_string_width`: an empty argument measures the current text. Every character is looked
     * up with `Chars[...]`, which files a default descriptor for an id never seen.
     */
    method StringWidth(text: string) returns (total: int)
      requires Valid()
      modifies this`chars
      ensures var s := if text == [] then old(currentText) else text;
              total == Width(old(Data()), s, |s|) && chars == Touched(old(chars), Codes(s))
    {
      var s := if text == [] then currentText else text;
      total := MeasureAll(s);
    }

    /** The loop of `get_string_width` over the chosen string. */
    method MeasureAll(s: string) returns (total: int)
      requires Valid()
      modifies this`chars
      ensures total == Width(old(Data()), s, |s|) && chars == Touched(old(chars), Codes(s))
    {
      ghost var f := Data();
      total := 0;
      var len := |s|;
      for i := 0 to len
        invariant total == Width(f, s, i) && chars == Touched(f.chars, Codes(s)[..i])
        invariant kern == f.kern && kernCount == f.kernCount
      {
        var step := Measure(s, i, f);
        total := total + step;
      }
      assert Codes(s)[..len] == Codes(s);
    }

    /** One character of `get_string_width`: the kerning past it, then its advance. */
    method Measure(s: string, i: nat, ghost f: FontData) returns (step: int)
      requires i < |s| && kern == f.kern && kernCount == f.kernCount && f.kernCount <= |f.kern|
      requires chars == Touched(f.chars, Codes(s)[..i])
      modifies this`chars
      ensures step == Advance(f, s, i) && chars == Touched(f.chars, Codes(s)[..i + 1])
    {
      var pair := Kerned(s, i);
      var id := CharCode(s[i]);
      TouchedLooksTheSame(f.chars, Codes(s)[..i], id);
      TouchedStep(f.chars, Codes(s)[..i], id);
      assert Codes(s)[..i + 1] == Codes(s)[..i] + [id];
      var g := Lookup(id);
      step := pair + g.xAdvance;
    }

    /** The kerning both loops add past character `i`: none in a text of one character. */
    method Kerned(s: string, i: nat) returns (pair: int32)
      requires i < |s| && Valid()
      ensures pair == KerningAfter(Data(), s, i)
    {
      var len := |s|;
      pair := 0;
      if len > 1 && i < len {
        pair := KerningPair(CharCode(s[i]), if i + 1 < len then CharCode(s[i + 1]) else 0);
      }
    }

    /** One character of `set_text`: look it up, take a line break, and move the pen past it. */
    method Place(text: string, i: nat, x0: int, line0: int, ghost f: FontData) returns (q: Quad, x: int, line: int)
      requires i < |text| && kern == f.kern && kernCount == f.kernCount && f.kernCount <= |f.kern|
      requires chars == Touched(f.chars, Codes(text)[..i]) && Pen(x0, line0) == PenBefore(f, text, i)
      modifies this`chars
      ensures chars == Touched(f.chars, Codes(text)[..i + 1])
      ensures q == Quad(PenAt(f, text, i).x, PenAt(f, text, i).line, GlyphOf(f.chars, CharCode(text[i])))
      ensures Pen(x, line) == PenBefore(f, text, i + 1)
    {
      var id := CharCode(text[i]);
      TouchedLooksTheSame(f.chars, Codes(text)[..i], id);
      TouchedStep(f.chars, Codes(text)[..i], id);
      assert Codes(text)[..i + 1] == Codes(text)[..i] + [id];
      var pair := Kerned(text, i);
      var g := Lookup(id);
      x, line := x0, line0;
      if text[i] == '\n' {
        x := 0;
        line := line + 1;
      }
      q := Quad(x, line, g);
      x := x + pair;
      x := x + g.xAdvance;
    }

    /** `Chars[id]`: the descriptor filed under `id`, after filing a default one if there was none. */
    method Lookup(id: int) returns (g: CharDescriptor)
      modifies this`chars
      ensures g == GlyphOf(old(chars), id) && chars == Touched(old(chars), [id])
    {
      if id !in chars {
        chars := chars[id := NO_CHAR];
      }
      g := chars[id];
    }

    /**
     * `load`: nothing happens unless the file exists; otherwise the file is parsed, `KernCount`
     * becomes the number of kerning records, and the first texture path, prefixed with the font
     * file's directory, is decoded into the texture (a failed decode reports failure). The
     * file's existence, its contents and the outcome of the decode are given as parameters.
     */
    method Load(fontfile: string, isFile: bool, data: string, decodes: bool) returns (ok: bool)
      requires Valid()
      modifies this`common, this`kernCount, this`chars, this`kern, this`texturePath, this`texture
      ensures !isFile ==> !ok && Data() == old(Data()) && texture == old(texture)
      ensures isFile ==>
                var parsed := Parse(Start(old(Data())), Lines(data)).font;
                common == parsed.common && chars == parsed.chars && kern == parsed.kern
                && kernCount == ToInt32(|parsed.kern|)
                && (parsed.texturePath == [] ==> texturePath == [] && texture == old(texture) && ok)
                && (parsed.texturePath != [] ==>
                      var first := Directory(fontfile) + "/" + parsed.texturePath[0];
                      texturePath == parsed.texturePath[0 := first]
                      && ok == decodes && texture == (if decodes then Some(first) else old(texture)))
      ensures Valid()
    {
      if !isFile {
        return false;
      }
      var _ := ParseFont(data);
      kernCount := ToInt32(|kern|);
      // The loop over the texture paths stops after the first one.
      if |texturePath| > 0 {
        var path := Directory(fontfile);
        texturePath := texturePath[0 := path + "/" + texturePath[0]];
        if !decodes {
          return false;
        }
        texture := Some(texturePath[0]);
      }
      ok := true;
    }

    /**
     * `set_text`: records the text and whether it is empty; an empty text stops there. Otherwise
     * one quad per character is laid out along the pen, and the quads and the index list (`6 n`
     * zeros first, then two triangles per quad) are uploaded. Looking up each character files
     * default descriptors as `StringWidth` does.
     */
    method SetText(text: string)
      requires Valid()
      requires 6 * |text| <= INT32_MAX  // beyond this `Flen * 6` overflows an `int`
      modifies this`currentText, this`empty, this`chars, this`gpuQuads, this`gpuIndices
      ensures currentText == text && empty == (text == [])
      ensures text == [] ==> chars == old(chars) && gpuQuads == old(gpuQuads) && gpuIndices == old(gpuIndices)
      ensures text != [] ==>
                gpuQuads == Layout(old(Data()), text) && gpuIndices == Uploaded(|text|)
                && chars == Touched(old(chars), Codes(text))
    {
      ghost var f := Data();
      var len := |text|;
      currentText := text;
      empty := len == 0;
      if empty {
        return;
      }
      assert Data() == f;
      var quads, indices := LayOut(text);
      gpuQuads := quads;
      gpuIndices := indices;
    }

    /** The loop of `set_text` over a non-empty text: the quads along the pen and the indices. */
    method LayOut(text: string) returns (quads: seq<Quad>, indices: seq<uint16>)
      requires Valid()
      requires 6 * |text| <= INT32_MAX
      modifies this`chars
      ensures quads == Layout(old(Data()), text) && indices == Uploaded(|text|)
      ensures chars == Touched(old(chars), Codes(text))
    {
      ghost var f := Data();
      var len := |text|;
      var x, line := 0, -1;
      quads := seq(len, _ => Quad(0, 0, NO_CHAR));
      indices := Zeros(6 * len);
      for i := 0 to len
        invariant LaidOutUpTo(f, text, i, x, line, quads, indices)
      {
        quads, indices, x, line := LayOutNext(f, text, i, x, line, quads, indices);
      }
      PlacedAll(f, text, quads);
      assert Codes(text)[..len] == Codes(text);
    }

    /** The first `i` characters of `text` are laid out from `f`, and the pen stands before character `i`. */
    ghost predicate LaidOutUpTo(f: FontData, text: string, i: nat, x: int, line: int, quads: seq<Quad>, indices: seq<uint16>)
      reads this`chars, this`kern, this`kernCount
    {
      && i <= |text| && f.kernCount <= |f.kern| && kern == f.kern && kernCount == f.kernCount
      && chars == Touched(f.chars, Codes(text)[..i])
      && Pen(x, line) == PenBefore(f, text, i)
      && PlacedUpTo(f, text, quads, i)
      && indices == Zeros(6 * |text|) + QuadIndices(i)
    }

    /** One pass of `set_text`'s loop: place character `i` and push its quad's indices. */
    method LayOutNext(ghost f: FontData, text: string, i: nat, x0: int, line0: int, quads0: seq<Quad>, indices0: seq<uint16>)
      returns (quads: seq<Quad>, indices: seq<uint16>, x: int, line: int)
      requires i < |text| && LaidOutUpTo(f, text, i, x0, line0, quads0, indices0)
      modifies this`chars
      ensures LaidOutUpTo(f, text, i + 1, x, line, quads, indices)
    {
      var q;
      q, x, line := Place(text, i, x0, line0, f);
      PlacedStep(f, text, quads0, i, q);
      quads := quads0[i := q];
      var base := i * 4;
      PushQuad(Zeros(6 * |text|), indices0, i);
      indices := indices0 + QuadOf(base);
    }
  }

  /** `fontfile.substr(0, fontfile.find_last_of("/"))`: the text before the last '/', or the
      whole name when it has none. */
  function Directory(fontfile: string): (r: string)
    ensures '/' in fontfile ==> |r| < |fontfile| && fontfile[..|r|] == r && fontfile[|r|] == '/' && '/' !in fontfile[|r| + 1..]
    ensures '/' !in fontfile ==> r == fontfile
  {
    match FindLast(fontfile, '/')
    case None => fontfile
    case Some(i) => fontfile[..i]
  }
}
