/**
 * adapters/cli/safe_console.py: text that survives the encoding of the stream it is written to.
 * Text is a sequence of code points, lone surrogates included, as in Python.
 */
module Console {
  import opened Outcomes

  type Line = seq<nat>

  type Bytes = seq<nat>

  /** A stateless codec: the byte strings of the characters it can encode. */
  type Codec = map<nat, Bytes>

  predicate Ascii(c: nat) {
    c < 0x80
  }

  ghost predicate AllAscii(text: Line) {
    forall k :: 0 <= k < |text| ==> Ascii(text[k])
  }

  /** U+DC80..U+DCFF, which stand for raw bytes (PEP 383). */
  predicate Escaped(c: nat) {
    0xDC80 <= c <= 0xDCFF
  }

  /** Every ASCII character can be encoded, no byte string starts another, and lone surrogates cannot be encoded. */
  ghost predicate Sound(codec: Codec) {
    && (forall c: nat :: Ascii(c) ==> c in codec)
    && (forall c: nat :: Escaped(c) ==> c !in codec)
    && (forall c :: c in codec ==> codec[c] != [])
    && (forall c, d :: c in codec && d in codec && codec[c] <= codec[d] ==> c == d)
  }

  /** A code page: one byte for each character, the byte of an ASCII character being itself. */
  ghost predicate CodePage(codec: Codec) {
    && Sound(codec)
    && (forall c :: c in codec ==> |codec[c]| == 1 && codec[c][0] < 0x100)
    && (forall c: nat :: Ascii(c) ==> codec[c] == [c])
  }

  /** The error handler of a stream. */
  datatype Errors = Strict | BackslashReplace | SurrogateEscape

  datatype Replacement = Chars(text: Line) | Raw(bytes: Bytes) | Reject

  // ---------------------------------------------------------------- replacements

  const QUESTION_MARK: Line := [0x3F]

  function HexDigit(d: nat): (c: nat)
    ensures d < 16 ==> Ascii(c)
  {
    if d < 10 then 0x30 + d else 0x57 + d
  }

  /** A lower-case hexadecimal digit. */
  predicate LowerHex(c: nat) {
    '0' as nat <= c <= '9' as nat || 'a' as nat <= c <= 'f' as nat
  }

  function Hex(n: nat, width: nat): (text: Line)
    ensures |text| == width && AllAscii(text)
    ensures forall k :: 0 <= k < width ==> LowerHex(text[k])
  {
    if width == 0 then [] else Hex(n / 16, width - 1) + [HexDigit(n % 16)]
  }

  /** A character spelled out as `\xNN`, `\uNNNN` or `\UNNNNNNNN`. */
  function SpelledOut(c: nat): (text: Line)
    ensures AllAscii(text)
  {
    if c < 0x100 then [0x5C, 0x78] + Hex(c, 2)
    else if c < 0x10000 then [0x5C, 0x75] + Hex(c, 4)
    else [0x5C, 0x55] + Hex(c, 8)
  }

  function DigitValue(c: nat): nat {
    if c < 0x3A then if c < 0x30 then 0 else c - 0x30
    else if c < 0x57 then 0 else c - 0x57
  }

  /** The number a run of hexadecimal digits stands for. */
  function HexValue(text: Line): nat {
    if text == [] then 0 else 16 * HexValue(text[..|text| - 1]) + DigitValue(text[|text| - 1])
  }

  function Power16(k: nat): nat {
    if k == 0 then 1 else 16 * Power16(k - 1)
  }

  lemma {:induction false} HexReadsBack(n: nat, width: nat)
    requires n < Power16(width)
    ensures HexValue(Hex(n, width)) == n
  {
    if width > 0 {
      HexReadsBack(n / 16, width - 1);
      assert Hex(n, width)[..width - 1] == Hex(n / 16, width - 1);
    }
  }

  /** A text as code points. */
  function Codes(s: string): (text: Line)
    ensures |text| == |s| && forall k :: 0 <= k < |s| ==> text[k] == s[k] as nat
  {
    seq(|s|, k requires 0 <= k < |s| => s[k] as nat)
  }

  lemma SpelledIn(c: nat) returns (width: nat)
    requires c <= 0x10FFFF
    ensures width == (if c < 0x100 then 2 else if c < 0x10000 then 4 else 8) && c < Power16(width)
    ensures |SpelledOut(c)| == 2 + width && SpelledOut(c)[2..] == Hex(c, width)
    ensures SpelledOut(c)[..2] == Codes(if c < 0x100 then "\\x" else if c < 0x10000 then "\\u" else "\\U")
  {
    assert Power16(2) == 0x100 && Power16(4) == 0x10000;
    assert Power16(8) == 0x10000 * Power16(4);
    width := |SpelledOut(c)| - 2;
  }

  /**
   * A spelled-out character starts as Python's own escapes do, its digits are its code point, and their number
   * follows from its size.
   */
  lemma SpellingReadsBack(c: nat)
    requires c <= 0x10FFFF
    ensures var text := SpelledOut(c);
            && |text| == 2 + (if c < 0x100 then 2 else if c < 0x10000 then 4 else 8)
            && text[..2] == Codes(if c < 0x100 then "\\x" else if c < 0x10000 then "\\u" else "\\U")
            && HexValue(text[2..]) == c
            && forall k :: 2 <= k < |text| ==> LowerHex(text[k])
  {
    var width := SpelledIn(c);
    HexReadsBack(c, width);
    forall k | 2 <= k < 2 + width ensures LowerHex(SpelledOut(c)[k]) {
      assert SpelledOut(c)[k] == SpelledOut(c)[2..][k - 2];
    }
  }

  /** `ASCII_FALLBACKS`. */
  function AsciiForm(c: nat): (form: Option<Line>)
    ensures form.Some? ==> AllAscii(form.value) && !Escaped(c)
  {
    match c
    case 0x2713 => Some([0x5B, 0x4F, 0x4B, 0x5D])  // check marks: [OK]
    case 0x2714 => Some([0x5B, 0x4F, 0x4B, 0x5D])
    case 0x2705 => Some([0x5B, 0x4F, 0x4B, 0x5D])
    case 0x2717 => Some([0x5B, 0x58, 0x5D])        // crosses: [X]
    case 0x2718 => Some([0x5B, 0x58, 0x5D])
    case 0x274C => Some([0x5B, 0x58, 0x5D])
    case 0x26A0 => Some([0x5B, 0x21, 0x5D])        // warning sign: [!]
    case 0xFE0F => Some([])                        // variation selector 16
    case 0x2022 => Some([0x2D])                    // bullet: -
    case 0x2265 => Some([0x3E, 0x3D])              // >=
    case 0x2264 => Some([0x3C, 0x3D])              // <=
    case 0x2192 => Some([0x2D, 0x3E])              // ->
    case 0x2190 => Some([0x3C, 0x2D])              // <-
    case 0x2018 => Some([0x27])                    // single quotation marks
    case 0x2019 => Some([0x27])
    case 0x201C => Some([0x22])                    // double quotation marks
    case 0x201D => Some([0x22])
    case 0x2026 => Some([0x2E, 0x2E, 0x2E])        // ...
    case _ => None
  }

  lemma FormsAsText()
    ensures Codes("[OK]") == [0x5B, 0x4F, 0x4B, 0x5D] && Codes("[X]") == [0x5B, 0x58, 0x5D]
    ensures Codes("[!]") == [0x5B, 0x21, 0x5D] && Codes("") == [] && Codes("-") == [0x2D]
    ensures Codes(">=") == [0x3E, 0x3D] && Codes("<=") == [0x3C, 0x3D]
    ensures Codes("->") == [0x2D, 0x3E] && Codes("<-") == [0x3C, 0x2D]
    ensures Codes("'") == [0x27] && Codes("\"") == [0x22] && Codes("...") == [0x2E, 0x2E, 0x2E]
  {
  }

  /** The table as text. */
  lemma AsciiFormIs(c: nat)
    ensures AsciiForm(c) ==
            if c in {0x2713, 0x2714, 0x2705} then Some(Codes("[OK]"))
            else if c in {0x2717, 0x2718, 0x274C} then Some(Codes("[X]"))
            else if c == 0x26A0 then Some(Codes("[!]"))
            else if c == 0xFE0F then Some([])
            else if c == 0x2022 then Some(Codes("-"))
            else if c == 0x2265 then Some(Codes(">="))
            else if c == 0x2264 then Some(Codes("<="))
            else if c == 0x2192 then Some(Codes("->"))
            else if c == 0x2190 then Some(Codes("<-"))
            else if c in {0x2018, 0x2019} then Some(Codes("'"))
            else if c in {0x201C, 0x201D} then Some(Codes("\""))
            else if c == 0x2026 then Some(Codes("..."))
            else None
  {
    FormsAsText();
  }

  /** What a stream's own handler makes of one character. */
  function Own(errors: Errors, c: nat): Replacement {
    match errors
    case Strict => Reject
    case BackslashReplace => Chars(SpelledOut(c))
    case SurrogateEscape => if Escaped(c) then Raw([c - 0xDC00]) else Reject
  }

  /** `_replacing_unencodable`: the ASCII form, else what the stream's own handler writes, else a question mark. */
  function Fallback(errors: Errors, c: nat): Replacement {
    match AsciiForm(c)
    case Some(form) => Chars(form)
    case None => if Own(errors, c).Reject? then Chars(QUESTION_MARK) else Own(errors, c)
  }

  /** The handler a text is encoded with. */
  datatype Handler = Stream(errors: Errors) | WithFallback(errors: Errors)

  function Replace(handler: Handler, c: nat): Replacement {
    match handler
    case Stream(errors) => Own(errors, c)
    case WithFallback(errors) => Fallback(errors, c)
  }

  // ---------------------------------------------------------------- encoding

  /** `text.encode(encoding)`; `None` is the UnicodeEncodeError. */
  function EncodeStrictly(codec: Codec, text: Line): Option<Bytes> {
    if text == [] then Some([])
    else if text[0] !in codec then None
    else
      match EncodeStrictly(codec, text[1..])
      case None => None
      case Some(rest) => Some(codec[text[0]] + rest)
  }

  /** A character the codec rejects is replaced; replacement text goes through the codec again. */
  function EncodeOne(codec: Codec, c: nat, handler: Handler): Option<Bytes> {
    if c in codec then Some(codec[c])
    else
      match Replace(handler, c)
      case Chars(text) => EncodeStrictly(codec, text)
      case Raw(bytes) => Some(bytes)
      case Reject => None
  }

  /** `text.encode(encoding, errors=handler)`. */
  function Encode(codec: Codec, text: Line, handler: Handler): Option<Bytes> {
    if text == [] then Some([])
    else
      match EncodeOne(codec, text[0], handler)
      case None => None
      case Some(first) =>
        match Encode(codec, text[1..], handler)
        case None => None
        case Some(rest) => Some(first + rest)
  }

  lemma PrefixesCompare(a: Bytes, b: Bytes, whole: Bytes)
    requires a <= whole && b <= whole
    ensures a <= b || b <= a
  {
    if |a| <= |b| {
      assert a == whole[..|a|] == b[..|a|];
    } else {
      assert b == whole[..|b|] == a[..|b|];
    }
  }

  lemma OneCodeStarts(codec: Codec, bytes: Bytes)
    requires Sound(codec)
    ensures forall c, d :: c in codec && d in codec && codec[c] <= bytes && codec[d] <= bytes ==> c == d
  {
    forall c, d | c in codec && d in codec && codec[c] <= bytes && codec[d] <= bytes ensures c == d {
      PrefixesCompare(codec[c], codec[d], bytes);
    }
  }

  function Then(first: Line, rest: Option<Line>): Option<Line> {
    match rest
    case None => None
    case Some(text) => Some(first + text)
  }

  /** `bytes.decode(encoding, errors=errors)`, where an undecodable stretch is one byte long. */
  function Decode(codec: Codec, bytes: Bytes, errors: Errors): Option<Line>
    requires Sound(codec)
    decreases |bytes|
  {
    if bytes == [] then Some([])
    else if exists c :: c in codec && codec[c] <= bytes then
      OneCodeStarts(codec, bytes);
      var c :| c in codec && codec[c] <= bytes;
      Then([c], Decode(codec, bytes[|codec[c]|..], errors))
    else
      match errors
      case Strict => None
      case BackslashReplace => Then(SpelledOut(bytes[0]), Decode(codec, bytes[1..], errors))
      case SurrogateEscape =>
        if bytes[0] < 0x80 then None else Then([0xDC00 + bytes[0]], Decode(codec, bytes[1..], errors))
  }

  function Degraded(codec: Codec, text: Line): Option<Line>
    requires Sound(codec)
  {
    match Encode(codec, text, WithFallback(Strict))
    case None => None
    case Some(encoded) => Decode(codec, encoded, Strict)
  }

  /** `ascii_fallback`; `None` is an exception that leaves the function. */
  function AsciiFallback(codec: Codec, text: Line, errors: Errors): Option<Line>
    requires Sound(codec)
  {
    match Encode(codec, text, WithFallback(errors))
    case Some(encoded) =>
      if Decode(codec, encoded, errors).Some? then Decode(codec, encoded, errors) else Degraded(codec, text)
    case None => Degraded(codec, text)
  }

  /** `encode_safe` for a stream whose encoding is known. */
  function EncodeSafe(codec: Codec, text: Line, errors: Errors): Option<Line>
    requires Sound(codec)
  {
    if EncodeStrictly(codec, text).Some? then Some(text) else AsciiFallback(codec, text, errors)
  }

  // ---------------------------------------------------------------- encoding character by character

  ghost predicate Encodable(codec: Codec, text: Line) {
    forall k :: 0 <= k < |text| ==> text[k] in codec
  }

  lemma {:induction false} StrictIff(codec: Codec, text: Line)
    ensures EncodeStrictly(codec, text).Some? <==> Encodable(codec, text)
  {
    if text != [] {
      StrictIff(codec, text[1..]);
      assert forall k :: 0 < k < |text| ==> text[k] == text[1..][k - 1];
      assert Encodable(codec, text) <==> text[0] in codec && Encodable(codec, text[1..]);
    }
  }

  lemma {:induction false} StrictOfConcat(codec: Codec, a: Line, b: Line)
    requires Encodable(codec, a) && Encodable(codec, b)
    ensures Encodable(codec, a + b)
    ensures EncodeStrictly(codec, a).Some? && EncodeStrictly(codec, b).Some? && EncodeStrictly(codec, a + b).Some?
    ensures EncodeStrictly(codec, a + b).value == EncodeStrictly(codec, a).value + EncodeStrictly(codec, b).value
  {
    StrictIff(codec, a);
    StrictIff(codec, b);
    StrictIff(codec, a + b);
    if a == [] {
      assert a + b == b;
    } else {
      assert Encodable(codec, a[1..]);
      StrictOfConcat(codec, a[1..], b);
      assert (a + b)[1..] == a[1..] + b;
    }
  }

  lemma DecodeOne(codec: Codec, c: nat, rest: Bytes, errors: Errors)
    requires Sound(codec) && c in codec
    ensures Decode(codec, codec[c] + rest, errors) == Then([c], Decode(codec, rest, errors))
  {
    var bytes := codec[c] + rest;
    assert codec[c] <= bytes && bytes[|codec[c]|..] == rest;
    OneCodeStarts(codec, bytes);
  }

  /** Decoding undoes strict encoding, whatever the handler: no character's bytes start another's. */
  lemma {:induction false} DecodeUndoesEncode(codec: Codec, text: Line, errors: Errors)
    requires Sound(codec) && Encodable(codec, text)
    ensures EncodeStrictly(codec, text).Some? && Decode(codec, EncodeStrictly(codec, text).value, errors) == Some(text)
  {
    StrictIff(codec, text);
    if text != [] {
      assert Encodable(codec, text[1..]);
      DecodeUndoesEncode(codec, text[1..], errors);
      DecodeOne(codec, text[0], EncodeStrictly(codec, text[1..]).value, errors);
      assert text == [text[0]] + text[1..];
    }
  }

  lemma TailOfConcat(a: seq<nat>, b: seq<nat>)
    requires a != []
    ensures a + b != [] && (a + b)[0] == a[0] && (a + b)[1..] == a[1..] + b
  {
  }

  lemma Associative(a: seq<nat>, b: seq<nat>, c: seq<nat>)
    ensures a + (b + c) == (a + b) + c
  {
  }

  // ---------------------------------------------------------------- code pages

  ghost predicate AllBytes(bytes: Bytes) {
    forall k :: 0 <= k < |bytes| ==> bytes[k] < 0x100
  }

  lemma {:induction false} StrictBytes(codec: Codec, text: Line)
    requires CodePage(codec) && Encodable(codec, text)
    ensures EncodeStrictly(codec, text).Some? && AllBytes(EncodeStrictly(codec, text).value)
  {
    if text != [] {
      assert Encodable(codec, text[1..]);
      StrictBytes(codec, text[1..]);
    }
  }

  /** The character a byte decodes to with `surrogateescape`. */
  function Character(codec: Codec, b: nat): nat
    requires CodePage(codec)
  {
    OneCodeStarts(codec, [b]);
    if exists c :: c in codec && codec[c] <= [b] then
      var c :| c in codec && codec[c] <= [b];
      c
    else 0xDC00 + b
  }

  lemma CharacterEncodes(codec: Codec, b: nat)
    requires CodePage(codec) && b < 0x100
    ensures EncodeOne(codec, Character(codec, b), Stream(SurrogateEscape)) == Some([b])
    ensures b < 0x80 ==> Character(codec, b) == b
  {
    OneCodeStarts(codec, [b]);
    assert b < 0x80 ==> b in codec && codec[b] <= [b];
    if c :| c in codec && codec[c] <= [b] {
      assert codec[c] == [b];
    }
  }

  /** What a `surrogateescape` stream reads back from bytes: one character for each byte. */
  function Characters(codec: Codec, bytes: Bytes): Line
    requires CodePage(codec)
  {
    if bytes == [] then [] else [Character(codec, bytes[0])] + Characters(codec, bytes[1..])
  }

  lemma {:induction false} CharactersOfConcat(codec: Codec, a: Bytes, b: Bytes)
    requires CodePage(codec)
    ensures Characters(codec, a + b) == Characters(codec, a) + Characters(codec, b)
  {
    if a == [] {
      assert a + b == b;
    } else {
      CharactersOfConcat(codec, a[1..], b);
      TailOfConcat(a, b);
      Associative([Character(codec, a[0])], Characters(codec, a[1..]), Characters(codec, b));
    }
  }

  lemma DecodeFirst(codec: Codec, bytes: Bytes)
    requires CodePage(codec) && AllBytes(bytes) && bytes != []
    ensures Decode(codec, bytes, SurrogateEscape) ==
              Then([Character(codec, bytes[0])], Decode(codec, bytes[1..], SurrogateEscape))
  {
    var b := bytes[0];
    CharacterEncodes(codec, b);
    OneCodeStarts(codec, bytes);
    OneCodeStarts(codec, [b]);
    forall c | c in codec ensures codec[c] <= bytes <==> codec[c] <= [b] {
      assert codec[c] == [codec[c][0]];
    }
  }

  lemma {:induction false} DecodeIsBytewise(codec: Codec, bytes: Bytes)
    requires CodePage(codec) && AllBytes(bytes)
    ensures Decode(codec, bytes, SurrogateEscape) == Some(Characters(codec, bytes))
  {
    if bytes != [] {
      assert AllBytes(bytes[1..]);
      DecodeIsBytewise(codec, bytes[1..]);
      DecodeFirst(codec, bytes);
    }
  }

  lemma CharactersUndoEncode(codec: Codec, text: Line)
    requires CodePage(codec) && Encodable(codec, text)
    ensures EncodeStrictly(codec, text).Some? && Characters(codec, EncodeStrictly(codec, text).value) == text
  {
    StrictBytes(codec, text);
    DecodeIsBytewise(codec, EncodeStrictly(codec, text).value);
    DecodeUndoesEncode(codec, text, SurrogateEscape);
  }

  lemma EncodeUnfolds(codec: Codec, text: Line, handler: Handler, first: Bytes, rest: Bytes)
    requires text != [] && EncodeOne(codec, text[0], handler) == Some(first)
    requires Encode(codec, text[1..], handler) == Some(rest)
    ensures Encode(codec, text, handler) == Some(first + rest)
  {
  }

  /** Any bytes survive decoding and encoding with `surrogateescape`. */
  lemma {:induction false} BytesSurvive(codec: Codec, bytes: Bytes)
    requires CodePage(codec) && AllBytes(bytes)
    ensures Decode(codec, bytes, SurrogateEscape).Some?
    ensures Encode(codec, Decode(codec, bytes, SurrogateEscape).value, Stream(SurrogateEscape)) == Some(bytes)
  {
    if bytes != [] {
      assert AllBytes(bytes[1..]);
      BytesSurvive(codec, bytes[1..]);
      DecodeFirst(codec, bytes);
      CharacterEncodes(codec, bytes[0]);
      var c, rest := Character(codec, bytes[0]), Decode(codec, bytes[1..], SurrogateEscape).value;
      assert ([c] + rest)[1..] == rest && [bytes[0]] + bytes[1..] == bytes;
      EncodeUnfolds(codec, [c] + rest, Stream(SurrogateEscape), [bytes[0]], bytes[1..]);
    }
  }

  // ---------------------------------------------------------------- what encode_safe makes of a text

  /** The streams the results below are about: the raw bytes of `surrogateescape` need a code page. */
  ghost predicate Carries(codec: Codec, errors: Errors) {
    CodePage(codec) || (Sound(codec) && !errors.SurrogateEscape?)
  }

  /** What one character becomes; a lone surrogate is read back from the byte it stands for. */
  function RewrittenOne(codec: Codec, errors: Errors, c: nat): Line
    requires Carries(codec, errors)
  {
    if c in codec then [c]
    else
      match Fallback(errors, c)
      case Chars(text) => text
      case Raw(bytes) => Characters(codec, bytes)
      case Reject => []
  }

  function Rewritten(codec: Codec, errors: Errors, text: Line): Line
    requires Carries(codec, errors)
  {
    if text == [] then [] else RewrittenOne(codec, errors, text[0]) + Rewritten(codec, errors, text[1..])
  }

  lemma AsciiIsEncodable(codec: Codec, text: Line)
    requires Sound(codec) && AllAscii(text)
    ensures Encodable(codec, text)
  {
  }

  lemma FallbackIsText(codec: Codec, errors: Errors, c: nat)
    requires Sound(codec) && !errors.SurrogateEscape?
    ensures Encodable(codec, RewrittenOne(codec, errors, c))
    ensures EncodeOne(codec, c, WithFallback(errors)) == EncodeStrictly(codec, RewrittenOne(codec, errors, c))
  {
    if c in codec {
      assert codec[c] + [] == codec[c];
    } else {
      assert Fallback(errors, c).Chars? && AllAscii(Fallback(errors, c).text);
      AsciiIsEncodable(codec, Fallback(errors, c).text);
    }
  }

  lemma {:induction false} FallbackEncodes(codec: Codec, text: Line, errors: Errors)
    requires Sound(codec) && !errors.SurrogateEscape?
    ensures Encodable(codec, Rewritten(codec, errors, text))
    ensures Encode(codec, text, WithFallback(errors)) == EncodeStrictly(codec, Rewritten(codec, errors, text))
  {
    if text != [] {
      FallbackIsText(codec, errors, text[0]);
      FallbackEncodes(codec, text[1..], errors);
      StrictOfConcat(codec, RewrittenOne(codec, errors, text[0]), Rewritten(codec, errors, text[1..]));
    }
  }

  lemma BytesOfOne(codec: Codec, c: nat, errors: Errors)
    requires CodePage(codec)
    ensures EncodeOne(codec, c, WithFallback(errors)).Some?
    ensures var bytes := EncodeOne(codec, c, WithFallback(errors)).value;
            AllBytes(bytes) && Characters(codec, bytes) == RewrittenOne(codec, errors, c)
  {
    if c in codec {
      assert codec[c] + [] == codec[c] && Encodable(codec, [c]);
      CharactersUndoEncode(codec, [c]);
    } else if Fallback(errors, c).Chars? {
      AsciiIsEncodable(codec, Fallback(errors, c).text);
      StrictBytes(codec, Fallback(errors, c).text);
      CharactersUndoEncode(codec, Fallback(errors, c).text);
    }
  }

  /** On a code page the first encode's bytes are read back as the rewritten text. */
  lemma {:induction false} FirstBytes(codec: Codec, text: Line, errors: Errors)
    requires CodePage(codec)
    ensures Encode(codec, text, WithFallback(errors)).Some?
    ensures var bytes := Encode(codec, text, WithFallback(errors)).value;
            AllBytes(bytes) && Characters(codec, bytes) == Rewritten(codec, errors, text)
  {
    if text != [] {
      BytesOfOne(codec, text[0], errors);
      FirstBytes(codec, text[1..], errors);
      CharactersOfConcat(codec, EncodeOne(codec, text[0], WithFallback(errors)).value,
        Encode(codec, text[1..], WithFallback(errors)).value);
    }
  }

  /** A stream hands back what it was given: its codec has the character, or it is a raw byte no character has. */
  predicate Carried(codec: Codec, errors: Errors, c: nat)
    requires Carries(codec, errors)
  {
    c in codec || (errors.SurrogateEscape? && Escaped(c) && Character(codec, c - 0xDC00) == c)
  }

  ghost predicate AllCarried(codec: Codec, errors: Errors, text: Line)
    requires Carries(codec, errors)
  {
    forall k :: 0 <= k < |text| ==> Carried(codec, errors, text[k])
  }

  lemma CharacterIsCarried(codec: Codec, b: nat)
    requires CodePage(codec) && b < 0x100
    ensures Carried(codec, SurrogateEscape, Character(codec, b))
  {
    CharacterEncodes(codec, b);
  }

  lemma OneIsCarried(codec: Codec, errors: Errors, c: nat)
    requires Carries(codec, errors)
    ensures AllCarried(codec, errors, RewrittenOne(codec, errors, c))
    ensures Carried(codec, errors, c) ==> RewrittenOne(codec, errors, c) == [c]
  {
    if c !in codec {
      if Fallback(errors, c).Chars? {
        AsciiIsEncodable(codec, Fallback(errors, c).text);
      } else {
        CharacterIsCarried(codec, c - 0xDC00);
        assert Characters(codec, [c - 0xDC00]) == [Character(codec, c - 0xDC00)];
      }
    }
  }

  lemma {:induction false} RewrittenIsCarried(codec: Codec, errors: Errors, text: Line)
    requires Carries(codec, errors)
    ensures AllCarried(codec, errors, Rewritten(codec, errors, text))
    ensures AllCarried(codec, errors, text) ==> Rewritten(codec, errors, text) == text
  {
    if text != [] {
      OneIsCarried(codec, errors, text[0]);
      RewrittenIsCarried(codec, errors, text[1..]);
      assert text == [text[0]] + text[1..];
    }
  }

  lemma RewrittenUnfolds(codec: Codec, errors: Errors, text: Line, one: Line, rest: Line)
    requires Carries(codec, errors)
    requires text != [] && one == RewrittenOne(codec, errors, text[0]) && rest == Rewritten(codec, errors, text[1..])
    ensures Rewritten(codec, errors, text) == one + rest
  {
  }

  lemma {:induction false} RewrittenDistributes(codec: Codec, errors: Errors, a: Line, b: Line)
    requires Carries(codec, errors)
    ensures Rewritten(codec, errors, a + b) == Rewritten(codec, errors, a) + Rewritten(codec, errors, b)
  {
    if a == [] {
      assert a + b == b;
      assert [] + Rewritten(codec, errors, b) == Rewritten(codec, errors, b);
    } else {
      var one, rest := RewrittenOne(codec, errors, a[0]), Rewritten(codec, errors, a[1..]);
      var more := Rewritten(codec, errors, b);
      RewrittenDistributes(codec, errors, a[1..], b);
      RewrittenUnfolds(codec, errors, a, one, rest);
      TailOfConcat(a, b);
      RewrittenUnfolds(codec, errors, a + b, one, rest + more);
      Associative(one, rest, more);
    }
  }

  /** Encoding to bytes and decoding again rewrites character by character. */
  lemma EncodeSafeRewrites(codec: Codec, text: Line, errors: Errors)
    requires Carries(codec, errors)
    ensures EncodeSafe(codec, text, errors) == Some(Rewritten(codec, errors, text))
  {
    StrictIff(codec, text);
    if Encodable(codec, text) {
      RewrittenIsCarried(codec, errors, text);
    } else if errors.SurrogateEscape? {
      FirstBytes(codec, text, errors);
      DecodeIsBytewise(codec, Encode(codec, text, WithFallback(errors)).value);
    } else {
      FallbackEncodes(codec, text, errors);
      DecodeUndoesEncode(codec, Rewritten(codec, errors, text), errors);
    }
  }

  /** `a` can be read off `b` by leaving characters out. */
  predicate Subsequence(a: Line, b: Line) {
    a == [] || (b != [] && (if a[0] == b[0] then Subsequence(a[1..], b[1..]) else Subsequence(a, b[1..])))
  }

  function Printable(codec: Codec, text: Line): Line {
    if text == [] then [] else (if text[0] in codec then [text[0]] else []) + Printable(codec, text[1..])
  }

  lemma {:induction false} SubsequenceOfTail(a: Line, b: Line)
    requires a != [] && Subsequence(a, b)
    ensures Subsequence(a[1..], b)
    decreases |b|
  {
    if a[0] == b[0] {
      if |a| > 1 && a[1] == b[0] {
        SubsequenceOfTail(a[1..], b[1..]);
      }
    } else {
      SubsequenceOfTail(a, b[1..]);
      if |a| > 1 && a[1] == b[0] {
        SubsequenceOfTail(a[1..], b[1..]);
      }
    }
  }

  lemma {:induction false} SubsequenceAfter(a: Line, front: Line, b: Line)
    requires Subsequence(a, b)
    ensures Subsequence(a, front + b)
  {
    if front == [] {
      assert front + b == b;
    } else if a != [] {
      SubsequenceAfter(a, front[1..], b);
      assert (front + b)[1..] == front[1..] + b;
      if a[0] == front[0] {
        SubsequenceOfTail(a, front[1..] + b);
      }
    }
  }

  lemma {:induction false} PrintableIsKept(codec: Codec, errors: Errors, text: Line)
    requires Carries(codec, errors)
    ensures Subsequence(Printable(codec, text), Rewritten(codec, errors, text))
  {
    if text != [] {
      PrintableIsKept(codec, errors, text[1..]);
      if text[0] in codec {
        assert Printable(codec, text)[1..] == Printable(codec, text[1..]);
        assert Rewritten(codec, errors, text)[1..] == Rewritten(codec, errors, text[1..]);
      } else {
        assert Printable(codec, text) == Printable(codec, text[1..]);
        SubsequenceAfter(Printable(codec, text[1..]), RewrittenOne(codec, errors, text[0]),
          Rewritten(codec, errors, text[1..]));
      }
    }
  }

  /**
   * Encode-safe output, for any text: the stream hands back every character of it, it is the text itself
   * exactly when the stream does so already, every printable character is kept in order, and rewriting
   * it again changes nothing. A strict or backslash-escaping stream can encode all of it.
   */
  lemma SafeTextIsEncodable(codec: Codec, text: Line, errors: Errors)
    requires Carries(codec, errors)
    ensures var r := EncodeSafe(codec, text, errors);
            && r.Some? && AllCarried(codec, errors, r.value)
            && (!errors.SurrogateEscape? ==> Encodable(codec, r.value))
            && (r.value == text <==> AllCarried(codec, errors, text))
            && Subsequence(Printable(codec, text), r.value)
            && EncodeSafe(codec, r.value, errors) == r
  {
    var r := Rewritten(codec, errors, text);
    EncodeSafeRewrites(codec, text, errors);
    RewrittenIsCarried(codec, errors, text);
    PrintableIsKept(codec, errors, text);
    EncodeSafeRewrites(codec, r, errors);
    RewrittenIsCarried(codec, errors, r);
  }

  lemma OneCharacter(codec: Codec, errors: Errors, c: nat)
    requires Carries(codec, errors)
    ensures EncodeSafe(codec, [c], errors) == Some(RewrittenOne(codec, errors, c))
  {
    EncodeSafeRewrites(codec, [c], errors);
    assert [c][1..] == [] && RewrittenOne(codec, errors, c) + [] == RewrittenOne(codec, errors, c);
  }

  /** A glyph the stream cannot encode comes out in its ASCII form, whatever the stream's own handler would write. */
  lemma GlyphsComeOutAs(codec: Codec, errors: Errors, c: nat)
    requires Carries(codec, errors) && c !in codec && AsciiForm(c).Some?
    ensures EncodeSafe(codec, [c], errors) == AsciiForm(c)
  {
    OneCharacter(codec, errors, c);
  }

  /** Any other character the stream cannot encode comes out as the stream's own handler writes it, else as `?`. */
  lemma OthersComeOutAs(codec: Codec, errors: Errors, c: nat)
    requires Carries(codec, errors) && c !in codec && AsciiForm(c).None?
    ensures var r := EncodeSafe(codec, [c], errors);
            match errors
            case Strict => r == Some([0x3F])
            case BackslashReplace => r == Some(SpelledOut(c))
            case SurrogateEscape => r == Some([if 0xDC80 <= c <= 0xDCFF then Character(codec, c - 0xDC00) else 0x3F])
  {
    OneCharacter(codec, errors, c);
    if errors.SurrogateEscape? && Escaped(c) {
      assert Characters(codec, [c - 0xDC00]) == [Character(codec, c - 0xDC00)];
    }
  }

  /** Text may be written in pieces. */
  lemma SafeTextDistributes(codec: Codec, a: Line, b: Line, errors: Errors)
    requires Carries(codec, errors)
    ensures EncodeSafe(codec, a, errors).Some? && EncodeSafe(codec, b, errors).Some?
    ensures EncodeSafe(codec, a + b, errors) ==
              Some(EncodeSafe(codec, a, errors).value + EncodeSafe(codec, b, errors).value)
  {
    EncodeSafeRewrites(codec, a, errors);
    EncodeSafeRewrites(codec, b, errors);
    EncodeSafeRewrites(codec, a + b, errors);
    RewrittenDistributes(codec, errors, a, b);
  }

  lemma {:induction false} FirstEncodeIsThere(codec: Codec, text: Line, errors: Errors)
    requires Sound(codec)
    ensures Encode(codec, text, WithFallback(errors)).Some?
  {
    if text != [] {
      FirstEncodeIsThere(codec, text[1..], errors);
      if text[0] !in codec && Fallback(errors, text[0]).Chars? {
        AsciiIsEncodable(codec, Fallback(errors, text[0]).text);
        StrictIff(codec, Fallback(errors, text[0]).text);
      }
    }
  }

  /**
   * `ascii_fallback` never raises, whatever the codec: when the stream's own replacement makes bytes that cannot
   * be read back, the text is rewritten as for a strict stream.
   */
  lemma FallbackNeverRaises(codec: Codec, text: Line, errors: Errors)
    requires Sound(codec)
    ensures AsciiFallback(codec, text, errors).Some?
    ensures var first := Encode(codec, text, WithFallback(errors));
            && first.Some?
            && (Decode(codec, first.value, errors).None? ==>
                AsciiFallback(codec, text, errors) == Some(Rewritten(codec, Strict, text)))
  {
    FirstEncodeIsThere(codec, text, errors);
    FallbackEncodes(codec, text, Strict);
    DecodeUndoesEncode(codec, Rewritten(codec, Strict, text), Strict);
  }

  // ---------------------------------------------------------------- the bytes that are written

  lemma {:induction false} StrictIsAnyHandlers(codec: Codec, text: Line, handler: Handler)
    requires Encodable(codec, text)
    ensures Encode(codec, text, handler) == EncodeStrictly(codec, text)
  {
    if text != [] {
      assert Encodable(codec, text[1..]);
      StrictIsAnyHandlers(codec, text[1..], handler);
    }
  }

  lemma FirstEncodes(codec: Codec, text: Line, errors: Errors)
    requires Carries(codec, errors)
    ensures Encode(codec, text, WithFallback(errors)).Some?
  {
    if errors.SurrogateEscape? {
      FirstBytes(codec, text, errors);
    } else {
      FallbackEncodes(codec, text, errors);
      StrictIff(codec, Rewritten(codec, errors, text));
    }
  }

  /**
   * Fallback bytes are stable: writing what `ascii_fallback` returns never raises and writes exactly
   * the bytes its first encode produced, for a code page under any of the three handlers, and for any
   * codec under the two that produce text.
   */
  lemma FallbackBytesAreStable(codec: Codec, text: Line, errors: Errors)
    requires Carries(codec, errors)
    ensures var r := AsciiFallback(codec, text, errors);
            && r.Some?
            && Encode(codec, text, WithFallback(errors)).Some?
            && Encode(codec, r.value, Stream(errors)) == Encode(codec, text, WithFallback(errors))
  {
    if errors.SurrogateEscape? {
      FirstBytes(codec, text, errors);
      BytesSurvive(codec, Encode(codec, text, WithFallback(errors)).value);
    } else {
      FallbackEncodes(codec, text, errors);
      DecodeUndoesEncode(codec, Rewritten(codec, errors, text), errors);
      StrictIsAnyHandlers(codec, Rewritten(codec, errors, text), Stream(errors));
    }
  }

  /** The bytes the first encode of `ascii_fallback` produces. */
  function FirstEncode(codec: Codec, text: Line, errors: Errors): Bytes
    requires Carries(codec, errors)
  {
    FirstEncodes(codec, text, errors);
    Encode(codec, text, WithFallback(errors)).value
  }

  lemma {:induction false} EncodeOfConcat(codec: Codec, a: Line, b: Line, handler: Handler, bytes: Bytes, more: Bytes)
    requires Encode(codec, a, handler) == Some(bytes) && Encode(codec, b, handler) == Some(more)
    ensures Encode(codec, a + b, handler) == Some(bytes + more)
  {
    if a == [] {
      assert a + b == b && bytes + more == more;
    } else {
      var one, rest := EncodeOne(codec, a[0], handler).value, Encode(codec, a[1..], handler).value;
      EncodeOfConcat(codec, a[1..], b, handler, rest, more);
      TailOfConcat(a, b);
      EncodeUnfolds(codec, a + b, handler, one, rest + more);
      Associative(one, rest, more);
    }
  }

  lemma FirstEncodeOfConcat(codec: Codec, a: Line, b: Line, errors: Errors)
    requires Carries(codec, errors)
    ensures FirstEncode(codec, a + b, errors) == FirstEncode(codec, a, errors) + FirstEncode(codec, b, errors)
  {
    FirstEncodes(codec, a, errors);
    FirstEncodes(codec, b, errors);
    EncodeOfConcat(codec, a, b, WithFallback(errors), FirstEncode(codec, a, errors), FirstEncode(codec, b, errors));
  }

  lemma FirstEncodeOfSurrogate(codec: Codec, c: nat)
    requires CodePage(codec) && Escaped(c)
    ensures FirstEncode(codec, [c], SurrogateEscape) == [c - 0xDC00]
  {
    assert EncodeOne(codec, c, WithFallback(SurrogateEscape)) == Some([c - 0xDC00]);
    assert [c][1..] == [] && [c - 0xDC00] + [] == [c - 0xDC00];
    EncodeUnfolds(codec, [c], WithFallback(SurrogateEscape), [c - 0xDC00], []);
  }

  lemma UnencodableAt(codec: Codec, text: Line, k: nat, errors: Errors)
    requires Carries(codec, errors) && k < |text| && text[k] !in codec
    ensures EncodeSafe(codec, text, errors).Some?
    ensures Encode(codec, EncodeSafe(codec, text, errors).value, Stream(errors)) ==
              Some(FirstEncode(codec, text, errors))
  {
    StrictIff(codec, text);
    FallbackBytesAreStable(codec, text, errors);
  }

  /** A lone surrogate anywhere in a text reaches a `surrogateescape` stream as the byte it stands for. */
  lemma SurrogateReachesTheStream(codec: Codec, a: Line, c: nat, b: Line)
    requires CodePage(codec) && Escaped(c)
    ensures var r := EncodeSafe(codec, a + [c] + b, SurrogateEscape);
            && r.Some?
            && Encode(codec, r.value, Stream(SurrogateEscape)) ==
               Some(FirstEncode(codec, a, SurrogateEscape) + [c - 0xDC00] + FirstEncode(codec, b, SurrogateEscape))
  {
    FirstEncodeOfConcat(codec, a + [c], b, SurrogateEscape);
    FirstEncodeOfConcat(codec, a, [c], SurrogateEscape);
    FirstEncodeOfSurrogate(codec, c);
    assert (a + [c] + b)[|a|] == c;
    UnencodableAt(codec, a + [c] + b, |a|, SurrogateEscape);
  }

  // ---------------------------------------------------------------- writing

  /** A text stream: it encodes a whole text before it writes any of it. */
  class Sink {
    const codec: Codec
    const errors: Errors
    var written: Bytes

    constructor (codec: Codec, errors: Errors)
      ensures this.codec == codec && this.errors == errors && written == []
    {
      this.codec, this.errors, written := codec, errors, [];
    }

    method Write(text: Line) returns (done: bool)
      modifies this`written
      ensures done <==> Encode(codec, text, Stream(errors)).Some?
      ensures written == old(written) + if done then Encode(codec, text, Stream(errors)).value else []
    {
      var bytes := Encode(codec, text, Stream(errors));
      if bytes.Some? {
        written := written + bytes.value;
      }
      return bytes.Some?;
    }
  }

  /** `_SafeWriter.write` and `echo`: never raises, and writes every character the codec has as its own bytes. */
  method Echo(sink: Sink, text: Line) returns (done: bool)
    requires Carries(sink.codec, sink.errors)
    modifies sink`written
    ensures done
    ensures sink.written == old(sink.written) + FirstEncode(sink.codec, text, sink.errors)
  {
    StrictIff(sink.codec, text);
    FallbackBytesAreStable(sink.codec, text, sink.errors);
    if Encodable(sink.codec, text) {
      StrictIsAnyHandlers(sink.codec, text, Stream(sink.errors));
      StrictIsAnyHandlers(sink.codec, text, WithFallback(sink.errors));
    }
    var safe := EncodeSafe(sink.codec, text, sink.errors);
    done := sink.Write(safe.value);
  }
}
