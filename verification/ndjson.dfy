// UTF-8 as bytes (RFC 3629): what Go's utf8.DecodeRune reads off the front
// of a string.
module Utf8 {
  type Byte = b: int | 0 <= b < 256

  const RUNE_ERROR := 0xFFFD

  // A code point and the number of bytes it took.
  datatype Rune = Rune(code: nat, size: nat)

  predicate Continues(b: Byte) { 0x80 <= b <= 0xBF }

  // The bytes that may follow a lead byte: no overlong form, no surrogate,
  // nothing past U+10FFFF.
  predicate Follows(lead: Byte, b: Byte) {
    Continues(b)
    && (lead == 0xE0 ==> b >= 0xA0) && (lead == 0xED ==> b <= 0x9F)
    && (lead == 0xF0 ==> b >= 0x90) && (lead == 0xF4 ==> b <= 0x8F)
  }

  // The bits a byte carries: past its lead mark, or past 10xxxxxx.
  function Lead(b: Byte, mark: nat): nat
    requires mark <= b
  {
    b - mark
  }

  function Low(b: Byte): (n: nat)
    requires Continues(b)
    ensures n < 64
  {
    b - 0x80
  }

  function DecodeRune(s: seq<Byte>): (r: Rune)
    requires s != []
    ensures 1 <= r.size <= |s|
  {
    if s[0] < 0x80 then Rune(s[0], 1)
    else if 0xC2 <= s[0] <= 0xDF && |s| >= 2 && Continues(s[1]) then
      Rune(Lead(s[0], 0xC0) * 64 + Low(s[1]), 2)
    else if 0xE0 <= s[0] <= 0xEF && |s| >= 3 && Follows(s[0], s[1]) && Continues(s[2]) then
      Rune((Lead(s[0], 0xE0) * 64 + Low(s[1])) * 64 + Low(s[2]), 3)
    else if 0xF0 <= s[0] <= 0xF4 && |s| >= 4 && Follows(s[0], s[1]) && Continues(s[2]) && Continues(s[3]) then
      Rune(((Lead(s[0], 0xF0) * 64 + Low(s[1])) * 64 + Low(s[2])) * 64 + Low(s[3]), 4)
    else Rune(RUNE_ERROR, 1)
  }

  // s starts with a byte that no code point's encoding starts.
  predicate Broken(s: seq<Byte>)
    requires s != []
  {
    DecodeRune(s) == Rune(RUNE_ERROR, 1)
  }

  predicate Scalar(c: nat) { c < 0xD800 || 0xE000 <= c < 0x110000 }

  // The encoding of a code point, by section 3 of RFC 3629.
  function Encode(c: nat): seq<Byte>
    requires Scalar(c)
  {
    if c < 0x80 then [c]
    else if c < 0x800 then [0xC0 + c / 64, 0x80 + c % 64]
    else if c < 0x10000 then [0xE0 + c / 4096, 0x80 + c / 64 % 64, 0x80 + c % 64]
    else [0xF0 + c / 262144, 0x80 + c / 4096 % 64, 0x80 + c / 64 % 64, 0x80 + c % 64]
  }

  lemma TwoDigits(a: nat, b: nat)
    requires b < 64
    ensures (a * 64 + b) / 64 == a && (a * 64 + b) % 64 == b
  {
  }

  lemma DigitsOf(c: nat)
    ensures c / 4096 == c / 64 / 64 && c / 262144 == c / 64 / 64 / 64
  {
  }

  lemma ThreeBytes(s: seq<Byte>)
    requires s != [] && DecodeRune(s).size == 3
    ensures Scalar(DecodeRune(s).code) && s[..3] == Encode(DecodeRune(s).code)
  {
    var c := DecodeRune(s).code;
    TwoDigits(Lead(s[0], 0xE0) * 64 + Low(s[1]), Low(s[2]));
    TwoDigits(Lead(s[0], 0xE0), Low(s[1]));
    DigitsOf(c);
    assert 0x800 <= c < 0x10000;
  }

  lemma FourBytes(s: seq<Byte>)
    requires s != [] && DecodeRune(s).size == 4
    ensures Scalar(DecodeRune(s).code) && s[..4] == Encode(DecodeRune(s).code)
  {
    var c := DecodeRune(s).code;
    TwoDigits((Lead(s[0], 0xF0) * 64 + Low(s[1])) * 64 + Low(s[2]), Low(s[3]));
    TwoDigits(Lead(s[0], 0xF0) * 64 + Low(s[1]), Low(s[2]));
    TwoDigits(Lead(s[0], 0xF0), Low(s[1]));
    DigitsOf(c);
    assert 0x10000 <= c < 0x110000;
  }

  // A code point is decoded exactly from its own encoding.
  lemma DecodedIsEncoded(s: seq<Byte>)
    requires s != [] && !Broken(s)
    ensures Scalar(DecodeRune(s).code) && s[..DecodeRune(s).size] == Encode(DecodeRune(s).code)
  {
    var r := DecodeRune(s);
    if r.size == 2 {
      TwoDigits(Lead(s[0], 0xC0), Low(s[1]));
    } else if r.size == 3 {
      ThreeBytes(s);
    } else if r.size == 4 {
      FourBytes(s);
    }
  }

  lemma EncodedIsDecoded(c: nat, rest: seq<Byte>)
    requires Scalar(c)
    ensures DecodeRune(Encode(c) + rest) == Rune(c, |Encode(c)|)
  {
    var s := Encode(c) + rest;
    DigitsOf(c);
    if 0x800 <= c {
      assert s[1] == Encode(c)[1] && s[2] == Encode(c)[2];
    }
  }

  // A byte is replaced exactly where no code point's encoding starts.
  lemma BrokenIff(s: seq<Byte>)
    requires s != []
    ensures Broken(s) <==> forall c: nat :: Scalar(c) ==> !(Encode(c) <= s)
  {
    if Broken(s) {
      forall c: nat | Scalar(c) ensures !(Encode(c) <= s) {
        if Encode(c) <= s {
          var rest := s[|Encode(c)|..];
          assert s == Encode(c) + rest;
          EncodedIsDecoded(c, rest);
        }
      }
    } else {
      DecodedIsEncoded(s);
      assert Encode(DecodeRune(s).code) <= s;
    }
  }

  // Reading a code point looks no further than its own bytes.
  lemma RuneIsLocal(s: seq<Byte>, rest: seq<Byte>)
    requires s != [] && !Broken(s)
    ensures DecodeRune(s[..DecodeRune(s).size] + rest) == DecodeRune(s)
  {
  }

  // The code points of s, each byte that starts none read as U+FFFD.
  function Runes(s: seq<Byte>): seq<nat> {
    if s == [] then [] else [DecodeRune(s).code] + Runes(s[DecodeRune(s).size..])
  }
}

// The JSON strings of an NDJSON stream (internal/ndjson/encoder.go), and a
// reader of them by section 7 of RFC 8259.
module Ndjson {
  import opened Wrappers
  import opened Lists
  import opened Utf8

  const QUOTE: Byte := 0x22
  const BACKSLASH: Byte := 0x5C
  const NEWLINE: Byte := 0x0A

  function Hex(n: nat): Byte
    requires n < 16
  {
    if n < 10 then 0x30 + n else 0x61 + n - 10
  }

  // An ASCII character written as it is: not a control, '"', '\\', '<', '>'
  // or '&'.
  predicate Plain(b: Byte) {
    b >= 0x20 && b != QUOTE && b != BACKSLASH && b != 0x3C && b != 0x3E && b != 0x26
  }

  function EscapeAscii(b: Byte): seq<Byte>
    requires b < 0x80
  {
    if b == BACKSLASH || b == QUOTE then [BACKSLASH, b]
    else if b == 0x08 then [BACKSLASH, 0x62]
    else if b == 0x0C then [BACKSLASH, 0x66]
    else if b == 0x0A then [BACKSLASH, 0x6E]
    else if b == 0x0D then [BACKSLASH, 0x72]
    else if b == 0x09 then [BACKSLASH, 0x74]
    else [BACKSLASH, 0x75, 0x30, 0x30, Hex(b / 16), Hex(b % 16)]
  }

  // The first character of s as it is written: itself, or an escape.
  function EscapeFirst(s: seq<Byte>): seq<Byte>
    requires s != []
  {
    var r := DecodeRune(s);
    if s[0] < 0x80 then if Plain(s[0]) then [s[0]] else EscapeAscii(s[0])
    else if Broken(s) then [BACKSLASH, 0x75, 0x66, 0x66, 0x66, 0x64]
    else if r.code == 0x2028 || r.code == 0x2029 then [BACKSLASH, 0x75, 0x32, 0x30, 0x32, Hex(r.code % 16)]
    else s[..r.size]
  }

  // A string written character by character.
  function Escaped(s: seq<Byte>): seq<Byte> {
    if s == [] then [] else EscapeFirst(s) + Escaped(s[DecodeRune(s).size..])
  }

  method AppendEscape(dst: seq<Byte>, b: Byte) returns (out: seq<Byte>)
    requires b < 0x80
    ensures out == dst + EscapeAscii(b)
  {
    if b == BACKSLASH || b == QUOTE {
      out := dst + [BACKSLASH, b];
    } else if b == 0x08 {
      out := dst + [BACKSLASH, 0x62];
    } else if b == 0x0C {
      out := dst + [BACKSLASH, 0x66];
    } else if b == 0x0A {
      out := dst + [BACKSLASH, 0x6E];
    } else if b == 0x0D {
      out := dst + [BACKSLASH, 0x72];
    } else if b == 0x09 {
      out := dst + [BACKSLASH, 0x74];
    } else {
      out := dst + [BACKSLASH, 0x75, 0x30, 0x30, Hex(b / 16), Hex(b % 16)];
    }
  }

  // What is written so far, with the stretch still to copy and the rest of s
  // written character by character.
  ghost function Pending(out: seq<Byte>, s: seq<Byte>, start: nat, i: nat): seq<Byte>
    requires start <= i <= |s|
  {
    out + s[start..i] + Escaped(s[i..])
  }

  // A character that stays as it is joins the stretch to copy.
  lemma Moved(out: seq<Byte>, s: seq<Byte>, start: nat, i: nat, size: nat)
    requires start <= i < |s| && size == DecodeRune(s[i..]).size && EscapeFirst(s[i..]) == s[i..][..size]
    ensures Pending(out, s, start, i + size) == Pending(out, s, start, i)
  {
    assert s[i..][size..] == s[i + size..];
    assert s[start..i + size] == s[start..i] + s[i..][..size];
    assert Escaped(s[i..]) == EscapeFirst(s[i..]) + Escaped(s[i + size..]);
    Associative(out, s[start..i], s[i..][..size]);
    Associative(out + s[start..i], s[i..][..size], Escaped(s[i + size..]));
  }

  // An escape comes after the stretch, and a new stretch starts behind it.
  lemma Flushed(out: seq<Byte>, s: seq<Byte>, start: nat, i: nat, size: nat, escape: seq<Byte>)
    requires start <= i < |s| && size == DecodeRune(s[i..]).size && escape == EscapeFirst(s[i..])
    ensures Pending(out + s[start..i] + escape, s, i + size, i + size) == Pending(out, s, start, i)
  {
    assert s[i..][size..] == s[i + size..];
    assert Escaped(s[i..]) == EscapeFirst(s[i..]) + Escaped(s[i + size..]);
    var copied := out + s[start..i];
    assert copied + EscapeFirst(s[i..]) + [] == copied + EscapeFirst(s[i..]);
    Associative(copied, EscapeFirst(s[i..]), Escaped(s[i + size..]));
  }

  // One turn of the loop of AppendString on an ASCII character.
  method PassAscii(dst: seq<Byte>, s: seq<Byte>, start: nat, i: nat) returns (out: seq<Byte>, start': nat, i': nat)
    requires start <= i < |s| && s[i] < 0x80
    ensures start' <= i' <= |s| && i < i' && Pending(out, s, start', i') == Pending(dst, s, start, i)
  {
    var b := s[i];
    if Plain(b) {
      Moved(dst, s, start, i, 1);
      return dst, start, i + 1;
    }
    Flushed(dst, s, start, i, 1, EscapeAscii(b));
    out := dst + s[start..i];
    out := AppendEscape(out, b);
    return out, i + 1, i + 1;
  }

  // One turn of that loop on anything else.
  method PassRune(dst: seq<Byte>, s: seq<Byte>, start: nat, i: nat) returns (out: seq<Byte>, start': nat, i': nat)
    requires start <= i < |s| && s[i] >= 0x80
    ensures start' <= i' <= |s| && i < i' && Pending(out, s, start', i') == Pending(dst, s, start, i)
  {
    var c := DecodeRune(s[i..]);
    var escape: seq<Byte>;
    if c.code == RUNE_ERROR && c.size == 1 {
      escape := [BACKSLASH, 0x75, 0x66, 0x66, 0x66, 0x64];
    } else if c.code == 0x2028 || c.code == 0x2029 {
      escape := [BACKSLASH, 0x75, 0x32, 0x30, 0x32, Hex(c.code % 16)];
    } else {
      Moved(dst, s, start, i, c.size);
      return dst, start, i + c.size;
    }
    Flushed(dst, s, start, i, c.size, escape);
    out := dst + s[start..i];
    out := out + escape;
    return out, i + c.size, i + c.size;
  }

  // Copying whole stretches that need no escape writes what escaping
  // character by character does.
  method AppendString(dst: seq<Byte>, s: seq<Byte>) returns (out: seq<Byte>)
    ensures out == dst + [QUOTE] + Escaped(s) + [QUOTE]
  {
    out := dst + [QUOTE];
    ghost var whole := out + Escaped(s);
    var start, i := 0, 0;
    assert s[0..] == s;
    while i < |s|
      invariant 0 <= start <= i <= |s|
      invariant Pending(out, s, start, i) == whole
    {
      if s[i] < 0x80 {
        out, start, i := PassAscii(out, s, start, i);
      } else {
        out, start, i := PassRune(out, s, start, i);
      }
    }
    assert s[start..] == s[start..i] && Escaped(s[i..]) == [];
    out := out + s[start..];
    out := out + [QUOTE];
  }

  // ---- Reading a JSON string back.

  function HexDigit(b: Byte): Option<nat> {
    if 0x30 <= b <= 0x39 then Some(b - 0x30)
    else if 0x41 <= b <= 0x46 then Some(b - 0x41 + 10)
    else if 0x61 <= b <= 0x66 then Some(b - 0x61 + 10)
    else None
  }

  // The four hex digits at the front of b.
  function FourHex(b: seq<Byte>): Option<nat> {
    if |b| < 4 then None
    else
      match (HexDigit(b[0]), HexDigit(b[1]), HexDigit(b[2]), HexDigit(b[3]))
      case (Some(w), Some(x), Some(y), Some(z)) => Some(w * 4096 + x * 256 + y * 16 + z)
      case _ => None
  }

  // A \u escape, or two that make a surrogate pair.
  function ReadUnicode(b: seq<Byte>): (r: Option<Rune>)
    requires |b| >= 2
    ensures r.Some? ==> 0 < r.value.size <= |b|
  {
    match FourHex(b[2..])
    case None => None
    case Some(c) =>
      if Scalar(c) then Some(Rune(c, 6))
      else if c < 0xDC00 && |b| >= 12 && b[6] == BACKSLASH && b[7] == 0x75 then
        match FourHex(b[8..])
        case Some(d) =>
          if 0xDC00 <= d < 0xE000 then Some(Rune(0x10000 + (c - 0xD800) * 1024 + (d - 0xDC00), 12)) else None
        case None => None
      else None
  }

  // The character that an escape at the front of b stands for.
  function ReadEscape(b: seq<Byte>): (r: Option<Rune>)
    ensures r.Some? ==> 0 < r.value.size <= |b|
  {
    if |b| < 2 then None
    else if b[1] == QUOTE || b[1] == BACKSLASH || b[1] == 0x2F then Some(Rune(b[1], 2))
    else if b[1] == 0x62 then Some(Rune(0x08, 2))
    else if b[1] == 0x66 then Some(Rune(0x0C, 2))
    else if b[1] == 0x6E then Some(Rune(0x0A, 2))
    else if b[1] == 0x72 then Some(Rune(0x0D, 2))
    else if b[1] == 0x74 then Some(Rune(0x09, 2))
    else if b[1] == 0x75 then ReadUnicode(b)
    else None
  }

  function ReadCharacter(b: seq<Byte>): (r: Option<Rune>)
    requires b != []
    ensures r.Some? ==> 0 < r.value.size <= |b|
  {
    if b[0] == BACKSLASH then ReadEscape(b)
    else if b[0] < 0x20 || Broken(b) then None
    else Some(DecodeRune(b))
  }

  // The characters up to the closing quote, which must end b.
  function ReadCharacters(b: seq<Byte>): Option<seq<nat>> {
    if b == [] then None
    else if b[0] == QUOTE then if |b| == 1 then Some([]) else None
    else
      match ReadCharacter(b)
      case None => None
      case Some(r) =>
        match ReadCharacters(b[r.size..])
        case None => None
        case Some(rest) => Some([r.code] + rest)
  }

  function ReadString(b: seq<Byte>): Option<seq<nat>> {
    if b == [] || b[0] != QUOTE then None else ReadCharacters(b[1..])
  }

  lemma HexReadsBack(n: nat)
    requires n < 16
    ensures HexDigit(Hex(n)) == Some(n)
  {
  }

  lemma AsciiReadsBack(b: Byte, rest: seq<Byte>)
    requires b < 0x80 && !Plain(b)
    ensures ReadCharacter(EscapeAscii(b) + rest) == Some(Rune(b, |EscapeAscii(b)|))
  {
    HexReadsBack(b / 16);
    HexReadsBack(b % 16);
    var e := EscapeAscii(b) + rest;
    if |EscapeAscii(b)| == 6 {
      assert e[2..][..4] == [0x30, 0x30, Hex(b / 16), Hex(b % 16)];
      assert FourHex(e[2..]) == Some(b);
    }
  }

  // What is written for one character reads back as it, whatever follows.
  lemma FirstReadsBack(s: seq<Byte>, rest: seq<Byte>)
    requires s != []
    ensures EscapeFirst(s) != [] && EscapeFirst(s)[0] != QUOTE
    ensures ReadCharacter(EscapeFirst(s) + rest) == Some(Rune(DecodeRune(s).code, |EscapeFirst(s)|))
  {
    var e := EscapeFirst(s) + rest;
    if s[0] < 0x80 {
      if !Plain(s[0]) {
        AsciiReadsBack(s[0], rest);
      }
    } else if Broken(s) {
      assert e[2..] == [0x66, 0x66, 0x66, 0x64] + rest;
      assert FourHex(e[2..]) == Some(RUNE_ERROR);
    } else if DecodeRune(s).code == 0x2028 || DecodeRune(s).code == 0x2029 {
      HexReadsBack(DecodeRune(s).code % 16);
      assert e[2..][..4] == [0x32, 0x30, 0x32, Hex(DecodeRune(s).code % 16)];
      assert FourHex(e[2..]) == Some(DecodeRune(s).code);
    } else {
      RuneIsLocal(s, rest);
    }
  }

  lemma {:induction false} CharactersReadBack(s: seq<Byte>)
    ensures ReadCharacters(Escaped(s) + [QUOTE]) == Some(Runes(s))
    decreases |s|
  {
    if s != [] {
      var first, later := EscapeFirst(s), s[DecodeRune(s).size..];
      CharactersReadBack(later);
      FirstReadsBack(s, Escaped(later) + [QUOTE]);
      var b := Escaped(s) + [QUOTE];
      assert b == first + (Escaped(later) + [QUOTE]);
      assert b[|first|..] == Escaped(later) + [QUOTE];
    }
  }

  // A string written by AppendString reads back as the string it was given,
  // with U+FFFD for each byte that is not UTF-8.
  lemma StringReadsBack(s: seq<Byte>)
    ensures ReadString([QUOTE] + Escaped(s) + [QUOTE]) == Some(Runes(s))
  {
    CharactersReadBack(s);
    assert ([QUOTE] + Escaped(s) + [QUOTE])[1..] == Escaped(s) + [QUOTE];
  }

  // ---- One value, one line.

  ghost predicate Printable(b: seq<Byte>) {
    forall i :: 0 <= i < |b| ==> b[i] >= 0x20
  }

  lemma {:induction false} EscapedIsPrintable(s: seq<Byte>)
    ensures Printable(Escaped(s))
    decreases |s|
  {
    if s != [] {
      EscapedIsPrintable(s[DecodeRune(s).size..]);
    }
  }

  // The lines of a stream; bytes after the last newline make no line.
  function LinesOf(stream: seq<Byte>, line: seq<Byte>): seq<seq<Byte>> {
    if stream == [] then []
    else if stream[0] == NEWLINE then [line] + LinesOf(stream[1..], [])
    else LinesOf(stream[1..], line + [stream[0]])
  }

  lemma {:induction false} OneLine(value: seq<Byte>, rest: seq<Byte>, line: seq<Byte>)
    requires NEWLINE !in value
    ensures LinesOf(value + [NEWLINE] + rest, line) == [line + value] + LinesOf(rest, [])
    decreases |value|
  {
    var stream := value + [NEWLINE] + rest;
    if value == [] {
      assert stream == [NEWLINE] + rest && line + value == line;
    } else {
      assert stream[1..] == value[1..] + [NEWLINE] + rest;
      OneLine(value[1..], rest, line + [value[0]]);
      assert line + [value[0]] + value[1..] == line + value;
    }
  }

  function Stream(values: seq<seq<Byte>>): seq<Byte> {
    if values == [] then [] else values[0] + [NEWLINE] + Stream(values[1..])
  }

  // A stream of values without a newline has them as its lines.
  lemma {:induction false} ValuesAreLines(values: seq<seq<Byte>>)
    requires forall v :: v in values ==> NEWLINE !in v
    ensures LinesOf(Stream(values), []) == values
  {
    if values != [] {
      ValuesAreLines(values[1..]);
      OneLine(values[0], Stream(values[1..]), []);
      assert [] + values[0] == values[0];
    }
  }

  lemma {:induction false} StreamSnoc(values: seq<seq<Byte>>, v: seq<Byte>)
    ensures Stream(values + [v]) == Stream(values) + v + [NEWLINE]
  {
    if values == [] {
      assert [v][1..] == [] && values + [v] == [v];
    } else {
      StreamSnoc(values[1..], v);
      assert (values + [v])[1..] == values[1..] + [v];
    }
  }

  // Strings of any bytes at all, written one a line, come back line by line.
  lemma StringsComeBack(strings: seq<seq<Byte>>)
    ensures var values := seq(|strings|, i requires 0 <= i < |strings| => [QUOTE] + Escaped(strings[i]) + [QUOTE]);
            var lines := LinesOf(Stream(values), []);
            |lines| == |strings| && forall i :: 0 <= i < |lines| ==> ReadString(lines[i]) == Some(Runes(strings[i]))
  {
    var values := seq(|strings|, i requires 0 <= i < |strings| => [QUOTE] + Escaped(strings[i]) + [QUOTE]);
    forall i | 0 <= i < |strings| ensures NEWLINE !in values[i] && ReadString(values[i]) == Some(Runes(strings[i])) {
      EscapedIsPrintable(strings[i]);
      StringReadsBack(strings[i]);
    }
    ValuesAreLines(values);
  }

  // The writer: one buffer for every line, emptied but kept.
  class Writer {
    var dst: seq<Byte>
    var line: seq<Byte>
    ghost var values: seq<seq<Byte>>

    ghost predicate Valid()
      reads this
    {
      dst == Stream(values)
    }

    constructor ()
      ensures Valid() && values == []
    {
      dst, line, values := [], [], [];
    }

    // Writes the JSON string of s as its own line.
    method WriteString(s: seq<Byte>)
      requires Valid()
      modifies this
      ensures Valid() && values == old(values) + [[QUOTE] + Escaped(s) + [QUOTE]]
      ensures old(dst) <= dst
    {
      line := AppendString([], s);
      ghost var value := line;
      line := line + [NEWLINE];
      dst := dst + line;
      StreamSnoc(values, value);
      Associative(old(dst), value, [NEWLINE]);
      assert value == [QUOTE] + Escaped(s) + [QUOTE] by {
        assert [] + [QUOTE] == [QUOTE];
      }
      values := values + [value];
    }
  }
}
