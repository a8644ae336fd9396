/** Character references: `decode_entities` (src/mapping/markup_tree.cpp) and the
    escapers it undoes. Text is a sequence of bytes, one `char` below 256 each. */
module Entities {
  import opened Common

  /** A decoded reference: what it stands for and how many bytes it took. */
  datatype Reference = Reference(out: string, length: nat)

  function Byte(n: nat): char
    requires n < 256
  {
    n as char
  }

  /** The UTF-8 bytes of a code point. */
  function Bytes(cp: nat): (out: string)
    requires cp <= 0x10FFFF
    ensures 1 <= |out| <= 4
  {
    if cp < 0x80 then [Byte(cp)]
    else if cp < 0x800 then [Byte(0xC0 + cp / 64), Byte(0x80 + cp % 64)]
    else if cp < 0x10000 then [Byte(0xE0 + cp / 4096), Byte(0x80 + cp / 64 % 64), Byte(0x80 + cp % 64)]
    else [Byte(0xF0 + cp / 262144), Byte(0x80 + cp / 4096 % 64), Byte(0x80 + cp / 64 % 64), Byte(0x80 + cp % 64)]
  }

  predicate Scalar(cp: nat) {
    0 < cp <= 0x10FFFF && !(0xD800 <= cp <= 0xDFFF)
  }

  /** UTF-8, with U+FFFD for zero and for what is not a scalar value. */
  function Utf8(codepoint: nat): string {
    Bytes(if Scalar(codepoint) then codepoint else 0xFFFD)
  }

  /** The code point that UTF-8 bytes spell. */
  function FromUtf8(s: string): int
    requires 1 <= |s| <= 4
  {
    if |s| == 1 then s[0] as int
    else if |s| == 2 then (s[0] as int - 0xC0) * 64 + (s[1] as int - 0x80)
    else if |s| == 3 then (s[0] as int - 0xE0) * 4096 + (s[1] as int - 0x80) * 64 + (s[2] as int - 0x80)
    else (s[0] as int - 0xF0) * 262144 + (s[1] as int - 0x80) * 4096 + (s[2] as int - 0x80) * 64 + (s[3] as int - 0x80)
  }

  /** Every code point is written so that it reads back. */
  lemma {:induction false} BytesReadBack(cp: nat)
    requires cp <= 0x10FFFF
    ensures FromUtf8(Bytes(cp)) == cp
  {
    var low, mid, high := cp % 64, cp / 64 % 64, cp / 4096 % 64;
    assert cp == cp / 64 * 64 + low;
    assert cp / 64 == cp / 4096 * 64 + mid;
    assert cp / 4096 == cp / 262144 * 64 + high;
  }

  function Digit(ch: char, hex: bool): Option<nat> {
    if '0' <= ch <= '9' then Some(ch as nat - '0' as nat)
    else if hex && 'a' <= ch <= 'f' then Some(ch as nat - 'a' as nat + 10)
    else if hex && 'A' <= ch <= 'F' then Some(ch as nat - 'A' as nat + 10)
    else None
  }

  /** The value of the digits, given up once it has passed the last code point. */
  function Number(digits: string, hex: bool, value: nat): Option<nat> {
    if digits == "" then Some(value)
    else
      match Digit(digits[0], hex)
      case None => None
      case Some(d) => if value > 0x10FFFF then None else Number(digits[1..], hex, value * (if hex then 16 else 10) + d)
  }

  function Numeric(name: string): Option<string> {
    if |name| < 2 || name[0] != '#' then None
    else
      var hex := name[1] == 'x' || name[1] == 'X';
      var digits := if hex then name[2..] else name[1..];
      if digits == "" then None
      else
        match Number(digits, hex, 0)
        case None => None
        case Some(n) => Some(Utf8(n))
  }

  function Named(name: string): (out: Option<string>)
    ensures out.Some? ==> |out.value| > 0
  {
    if name == "amp" then Some("&")
    else if name == "lt" then Some("<")
    else if name == "gt" then Some(">")
    else if name == "quot" then Some("\"")
    else if name == "apos" then Some("'")
    else if name == "nbsp" then Some(Utf8(0xA0))
    else Numeric(name)
  }

  /** The reference a text starting with '&' opens with. */
  function ReferenceAt(s: string): (r: Option<Reference>)
    requires s != "" && s[0] == '&'
    ensures r.Some? ==> 0 < r.value.length <= |s| && |r.value.out| > 0
  {
    var semi := 1 + Find(s[1..], ';');
    if semi == |s| || semi > 10 then None
    else
      match Named(s[1..semi])
      case None => None
      case Some(out) => Some(Reference(out, semi + 1))
  }

  function Decode(s: string): string
    decreases |s|
  {
    if s == "" then ""
    else if s[0] != '&' then [s[0]] + Decode(s[1..])
    else
      match ReferenceAt(s)
      case None => ['&'] + Decode(s[1..])
      case Some(r) => r.out + Decode(s[r.length..])
  }

  /** The decoding loop. */
  method DecodeEntities(text: string) returns (out: string)
    ensures out == Decode(text)
  {
    hide Decode, ReferenceAt;
    out := "";
    var i := 0;
    assert text[0..] == text;
    while i < |text|
      invariant i <= |text| && out + Decode(text[i..]) == Decode(text)
    {
      DecodeStep(text, i);
      if text[i] != '&' {
        out := out + [text[i]];
        i := i + 1;
      } else {
        var reference := ReferenceAt(text[i..]);
        if reference.Some? {
          out := out + reference.value.out;
          i := i + reference.value.length;
        } else {
          out := out + ['&'];
          i := i + 1;
        }
      }
    }
    DecodeNothing(text[i..]);
  }

  lemma {:induction false} DecodeNothing(s: string)
    requires s == ""
    ensures Decode(s) == ""
  {
  }

  lemma {:induction false} DecodeStep(text: string, i: nat)
    requires i < |text|
    ensures text[i] != '&' ==> Decode(text[i..]) == [text[i]] + Decode(text[i + 1..])
    ensures text[i] == '&' && ReferenceAt(text[i..]).None? ==> Decode(text[i..]) == ['&'] + Decode(text[i + 1..])
    ensures text[i] == '&' && ReferenceAt(text[i..]).Some? ==>
              var r := ReferenceAt(text[i..]).value;
              i + r.length <= |text| && Decode(text[i..]) == r.out + Decode(text[i + r.length..])
  {
    hide ReferenceAt;
    var rest := text[i..];
    assert rest[1..] == text[i + 1..];
    if text[i] == '&' && ReferenceAt(rest).Some? {
      assert rest[ReferenceAt(rest).value.length..] == text[i + ReferenceAt(rest).value.length..];
    }
  }

  // ---- escapers ----------------------------------------------------------

  /** The escaping of CDATA sections, of LaTeX cells and of Markdown text. */
  datatype Escaper = Cdata | LatexCell | Markdown

  function Code(e: Escaper, ch: char): string {
    if ch == '&' then "&amp;"
    else if ch == '<' && e != Cdata then "&lt;"
    else if ch == '>' && e != Cdata then "&gt;"
    else if ch == '"' && e == Markdown then "&quot;"
    else [ch]
  }

  function Escape(e: Escaper, s: string): string {
    if s == "" then "" else Code(e, s[0]) + Escape(e, s[1..])
  }

  method EscapeInto(e: Escaper, text: string, before: string) returns (out: string)
    ensures out == before + Escape(e, text)
  {
    out := before;
    for i := 0 to |text|
      invariant out + Escape(e, text[i..]) == before + Escape(e, text)
    {
      assert text[i..][1..] == text[i + 1..];
      out := out + Code(e, text[i]);
    }
  }

  lemma {:induction false} NamedReference(name: string, out: string, rest: string)
    requires |name| <= 9 && ';' !in name && Named(name) == Some(out)
    ensures Decode("&" + name + ";" + rest) == out + Decode(rest)
  {
    var s := "&" + name + ";" + rest;
    var tail := name + ";" + rest;
    assert s[1..] == tail;
    assert forall i :: 0 <= i < |name| ==> tail[i] == name[i] && name[i] in name;
    assert tail[|name|] == ';';
    var n := Find(tail, ';');
    assert !(n < |name|) && !(n > |name|);
    assert s[1..|name| + 1] == name && s[|name| + 2..] == rest;
  }

  lemma {:induction false} CodeDecodes(e: Escaper, ch: char, rest: string)
    ensures Decode(Code(e, ch) + rest) == [ch] + Decode(rest)
  {
    hide Decode;
    NamedReference("amp", "&", rest);
    NamedReference("lt", "<", rest);
    NamedReference("gt", ">", rest);
    NamedReference("quot", "\"", rest);
    assert "&" + "amp" + ";" == "&amp;" && "&" + "lt" + ";" == "&lt;" && "&" + "gt" + ";" == "&gt;" &&
      "&" + "quot" + ";" == "&quot;";
    if ch != '&' {
      PlainByte(ch, rest);
    }
  }

  lemma {:induction false} PlainByte(ch: char, rest: string)
    requires ch != '&'
    ensures Decode([ch] + rest) == [ch] + Decode(rest)
  {
    assert ([ch] + rest)[1..] == rest;
  }

  /** Decoding inverts every escaper, whatever follows the escaped text. */
  lemma {:induction false} DecodeInvertsEscape(e: Escaper, s: string, rest: string)
    ensures Decode(Escape(e, s) + rest) == s + Decode(rest)
    decreases |s|
  {
    hide Decode;
    if s == "" {
      assert Escape(e, s) + rest == rest && s + Decode(rest) == Decode(rest);
    } else {
      DecodeInvertsEscape(e, s[1..], rest);
      CodeDecodes(e, s[0], Escape(e, s[1..]) + rest);
      assert Code(e, s[0]) + (Escape(e, s[1..]) + rest) == Escape(e, s) + rest;
      assert [s[0]] + (s[1..] + Decode(rest)) == s + Decode(rest);
    }
  }

  lemma {:induction false} RoundTrip(e: Escaper, s: string)
    ensures Decode(Escape(e, s)) == s
  {
    DecodeInvertsEscape(e, s, "");
    assert Escape(e, s) + "" == Escape(e, s) && Decode("") == "" && s + "" == s;
  }

  /** Escaped cells and Markdown text hold no byte that could open or close a tag. */
  lemma {:induction false} EscapedHasNoTags(e: Escaper, s: string)
    requires e != Cdata
    ensures '<' !in Escape(e, s) && '>' !in Escape(e, s)
    decreases |s|
  {
    if s != "" {
      EscapedHasNoTags(e, s[1..]);
      assert '<' !in Code(e, s[0]) && '>' !in Code(e, s[0]);
    }
  }

  // ---- numeric references --------------------------------------------------

  const LOWER: string := "0123456789abcdef"
  const UPPER: string := "0123456789ABCDEF"

  /** The text writes these digits, each in either case. */
  ghost predicate Spells(text: string, digits: seq<nat>, hex: bool) {
    && |text| == |digits|
    && forall i :: 0 <= i < |text| ==> SpellsDigit(text[i], digits[i], hex)
  }

  predicate SpellsDigit(ch: char, d: nat, hex: bool) {
    d < (if hex then 16 else 10) && (ch == LOWER[d] || ch == UPPER[d])
  }

  /** The number that digits stand for by their places. */
  function Place(digits: seq<nat>, base: nat): nat {
    if digits == [] then 0 else Place(digits[..|digits| - 1], base) * base + digits[|digits| - 1]
  }

  function Base(hex: bool): nat {
    if hex then 16 else 10
  }

  lemma {:induction false} DigitSpelled(ch: char, d: nat, hex: bool)
    requires SpellsDigit(ch, d, hex)
    ensures Digit(ch, hex) == Some(d) && ch != ';' && ch != 'x' && ch != 'X'
  {
  }

  lemma {:induction false} PlaceGrows(digits: seq<nat>, base: nat, i: nat, j: nat)
    requires (base == 10 || base == 16) && i <= j <= |digits|
    ensures Place(digits[..i], base) <= Place(digits[..j], base)
    decreases j
  {
    hide Place;
    if i < j {
      PlaceGrows(digits, base, i, j - 1);
      PlaceNext(digits, base, j - 1);
    }
  }

  lemma {:induction false} PlaceNext(digits: seq<nat>, base: nat, i: nat)
    requires i < |digits|
    ensures Place(digits[..i + 1], base) == Place(digits[..i], base) * base + digits[i]
  {
    assert digits[..i + 1][..i] == digits[..i];
  }

  /** Reading on from digit `i` gives the number by places, or nothing when the digits
      before the last already pass the last code point. */
  lemma {:induction false} NumberFrom(text: string, digits: seq<nat>, hex: bool, i: nat)
    requires Spells(text, digits, hex) && text != "" && i < |text|
    ensures Number(text[i..], hex, Place(digits[..i], Base(hex))) ==
              if Place(digits[..|digits| - 1], Base(hex)) > 0x10FFFF then None else Some(Place(digits, Base(hex)))
    decreases |text| - i
  {
    hide Digit, Place, SpellsDigit;
    DigitSpelled(text[i], digits[i], hex);
    PlaceNext(digits, Base(hex), i);
    PlaceGrows(digits, Base(hex), i, |digits| - 1);
    assert text[i..][1..] == text[i + 1..];
    if i + 1 < |text| {
      NumberFrom(text, digits, hex, i + 1);
    } else {
      assert digits[..i + 1] == digits;
    }
  }

  /** What announces a number of this kind. */
  predicate Marks(mark: string, hex: bool) {
    if hex then mark == "#x" || mark == "#X" else mark == "#"
  }

  lemma {:induction false} NumericSpelled(mark: string, text: string, digits: seq<nat>, hex: bool)
    requires Marks(mark, hex) && Spells(text, digits, hex) && text != ""
    ensures Numeric(mark + text) ==
              if Place(digits[..|digits| - 1], Base(hex)) > 0x10FFFF then None
              else Some(Utf8(Place(digits, Base(hex))))
  {
    hide Digit, Number, SpellsDigit, Utf8;
    DigitSpelled(text[0], digits[0], hex);
    NumberFrom(text, digits, hex, 0);
    assert text[0..] == text && digits[..0] == [] && Place([], Base(hex)) == 0;
    var name := mark + text;
    assert hex ==> name[2..] == text;
    assert !hex ==> name[1..] == text && name[1] == text[0];
  }

  lemma {:induction false} NumericIsNoName(mark: string, text: string, hex: bool)
    requires Marks(mark, hex)
    ensures Named(mark + text) == Numeric(mark + text)
  {
    hide Numeric, Utf8;
    assert (mark + text)[0] == '#';
  }

  lemma {:induction false} SpelledLacksSemicolon(mark: string, text: string, digits: seq<nat>, hex: bool)
    requires Marks(mark, hex) && Spells(text, digits, hex)
    ensures ';' !in mark + text
  {
    forall i | 0 <= i < |text| ensures text[i] != ';' {
      DigitSpelled(text[i], digits[i], hex);
    }
  }

  /** Every decimal and every hexadecimal spelling, leading zeros and either case
      included, of every scalar value decodes to its UTF-8 bytes, up to the longest
      name a reference may have; any other number up to the last code point decodes
      to U+FFFD. */
  lemma {:induction false} NumbersDecode(mark: string, text: string, digits: seq<nat>, hex: bool, rest: string)
    requires Marks(mark, hex) && Spells(text, digits, hex) && 1 <= |text| <= (if hex then 7 else 8)
    requires Place(digits, Base(hex)) <= 0x10FFFF
    ensures var cp := Place(digits, Base(hex));
            var shown := if cp == 0 || 0xD800 <= cp <= 0xDFFF then 0xFFFD else cp;
            Decode("&" + mark + text + ";" + rest) == Bytes(shown) + Decode(rest)
  {
    hide Decode, Numeric, Named, Bytes, Spells, Place, Utf8;
    var cp := Place(digits, Base(hex));
    var name := mark + text;
    SpelledLength(text, digits, hex);
    PlaceGrows(digits, Base(hex), |digits| - 1, |digits|);
    assert digits[..|digits|] == digits;
    NumericSpelled(mark, text, digits, hex);
    NumericIsNoName(mark, text, hex);
    SpelledLacksSemicolon(mark, text, digits, hex);
    Utf8Shows(cp);
    NamedReference(name, Utf8(cp), rest);
    assert "&" + mark + text + ";" + rest == "&" + name + ";" + rest;
  }

  lemma {:induction false} SpelledLength(text: string, digits: seq<nat>, hex: bool)
    requires Spells(text, digits, hex)
    ensures |text| == |digits|
  {
  }

  lemma {:induction false} Utf8Shows(cp: nat)
    requires cp <= 0x10FFFF
    ensures Utf8(cp) == Bytes(if cp == 0 || 0xD800 <= cp <= 0xDFFF then 0xFFFD else cp)
  {
  }

  /** The six names, each with what it stands for. */
  lemma {:induction false} NamesDecode(rest: string)
    ensures Decode("&amp;" + rest) == "&" + Decode(rest) && Decode("&lt;" + rest) == "<" + Decode(rest)
    ensures Decode("&gt;" + rest) == ">" + Decode(rest) && Decode("&quot;" + rest) == "\"" + Decode(rest)
    ensures Decode("&apos;" + rest) == "'" + Decode(rest)
    ensures Decode("&nbsp;" + rest) == [0xC2 as char, 0xA0 as char] + Decode(rest)
  {
    hide Decode;
    NamedReference("amp", "&", rest);
    NamedReference("lt", "<", rest);
    NamedReference("gt", ">", rest);
    NamedReference("quot", "\"", rest);
    NamedReference("apos", "'", rest);
    NamedReference("nbsp", [0xC2 as char, 0xA0 as char], rest);
    assert "&" + "amp" + ";" == "&amp;" && "&" + "lt" + ";" == "&lt;" && "&" + "gt" + ";" == "&gt;";
    assert "&" + "quot" + ";" == "&quot;" && "&" + "apos" + ";" == "&apos;" && "&" + "nbsp" + ";" == "&nbsp;";
  }
}
