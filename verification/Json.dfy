/**
 * JSON texts, section 2 of RFC 8259, as syntax trees that keep every spelling: all the whitespace there may
 * be, and strings and names in their escaped form. Printing goes through a sequence of tokens.
 */
module Json {
  import opened ErrorScan

  const BACKSLASH: u8 := 0x5C
  const COMMA: u8 := 0x2C
  const OPEN_BRACKET: u8 := 0x5B
  const CLOSE_BRACKET: u8 := 0x5D
  const OPEN_BRACE: u8 := 0x7B
  const CLOSE_BRACE: u8 := 0x7D
  const TRUE: seq<u8> := [0x74, 0x72, 0x75, 0x65]
  const FALSE: seq<u8> := [0x66, 0x61, 0x6C, 0x73, 0x65]

  datatype Value =
    | Null
    | True
    | False
    | Number(digits: seq<u8>)
    | Text(escaped: seq<u8>)
    | Arr(inner: seq<u8>, entries: seq<Entry>)
    | Obj(inner: seq<u8>, entries: seq<Entry>)

  /**
   * What stands between two commas. `lead`, `trail`, `gap` and `pad` are whitespace: around the entry, and
   * before and behind the colon of a member.
   */
  datatype Entry =
    | Item(lead: seq<u8>, value: Value, trail: seq<u8>)
    | Member(lead: seq<u8>, name: seq<u8>, gap: seq<u8>, pad: seq<u8>, value: Value, trail: seq<u8>)

  /** A whole text: a value with whitespace around it. */
  datatype Document = Document(lead: seq<u8>, value: Value, trail: seq<u8>)

  // ---- Strings ----

  predicate IsHex(b: u8) {
    0x30 <= b <= 0x39 || 0x41 <= b <= 0x46 || 0x61 <= b <= 0x66
  }

  /** The characters that may follow a backslash on their own, section 7 of RFC 8259. */
  predicate IsShortEscape(b: u8) {
    b == QUOTE || b == BACKSLASH || b == 0x2F || b == 0x62 || b == 0x66 || b == 0x6E || b == 0x72 || b == 0x74
  }

  /** The inside of a string literal, section 7 of RFC 8259. */
  predicate Escaped(e: seq<u8>)
    decreases |e|
  {
    if e == [] then true
    else if e[0] == BACKSLASH then
      || (2 <= |e| && IsShortEscape(e[1]) && Escaped(e[2..]))
      || (6 <= |e| && e[1] == 0x75 && IsHex(e[2]) && IsHex(e[3]) && IsHex(e[4]) && IsHex(e[5]) && Escaped(e[6..]))
    else 0x20 <= e[0] && e[0] != QUOTE && Escaped(e[1..])
  }

  function HexDigit(n: nat): u8
    requires n < 16
  {
    if n < 10 then 0x30 + n else 0x57 + n
  }

  function EscapeByte(b: u8): seq<u8> {
    if b == QUOTE || b == BACKSLASH then [BACKSLASH, b]
    else if b < 0x20 then [BACKSLASH, 0x75, 0x30, 0x30, HexDigit(b / 16), HexDigit(b % 16)]
    else [b]
  }

  /** One way to escape an arbitrary string. */
  function Escape(s: seq<u8>): seq<u8> {
    if s == [] then [] else EscapeByte(s[0]) + Escape(s[1..])
  }

  /** Inside a string literal every quote directly follows a backslash. */
  lemma {:induction false} QuotesAreEscaped(e: seq<u8>, k: nat)
    requires Escaped(e) && k < |e| && e[k] == QUOTE
    ensures 0 < k && e[k - 1] == BACKSLASH
    decreases |e|
  {
    if e[0] == BACKSLASH {
      if 2 <= |e| && IsShortEscape(e[1]) && Escaped(e[2..]) {
        if k >= 2 {
          QuotesAreEscaped(e[2..], k - 2);
        }
      } else if k >= 6 {
        QuotesAreEscaped(e[6..], k - 6);
      }
    } else {
      QuotesAreEscaped(e[1..], k - 1);
    }
  }

  function HexValue(b: u8): nat
    requires IsHex(b)
  {
    if b <= 0x39 then b - 0x30 else if b <= 0x46 then b - 0x37 else b - 0x57
  }

  function ShortEscaped(b: u8): nat
    requires IsShortEscape(b)
  {
    match b
    case 0x62 => 0x08
    case 0x66 => 0x0C
    case 0x6E => 0x0A
    case 0x72 => 0x0D
    case 0x74 => 0x09
    case _ => b
  }

  /** The string a literal stands for: code units from `\u` escapes, all other characters byte by byte. */
  function Decoded(e: seq<u8>): seq<int>
    requires Escaped(e)
    decreases |e|
  {
    if e == [] then []
    else if e[0] != BACKSLASH then [e[0]] + Decoded(e[1..])
    else if IsShortEscape(e[1]) then [ShortEscaped(e[1])] + Decoded(e[2..])
    else
      [0x1000 * HexValue(e[2]) + 0x100 * HexValue(e[3]) + 0x10 * HexValue(e[4]) + HexValue(e[5])] + Decoded(e[6..])
  }

  lemma HexRoundTrip(b: u8)
    ensures var h, l := HexDigit(b / 16), HexDigit(b % 16);
      IsHex(h) && IsHex(l) && 0x10 * HexValue(h) + HexValue(l) == b
  {
  }

  lemma {:induction false} EscapedByteDecodes(b: u8, rest: seq<u8>)
    requires Escaped(rest)
    ensures var e := EscapeByte(b) + rest; Escaped(e) && Decoded(e) == [b as int] + Decoded(rest)
  {
    var head, e := EscapeByte(b), EscapeByte(b) + rest;
    HexRoundTrip(b);
    assert e[|head|..] == rest;
    assert forall i :: 0 <= i < |head| ==> e[i] == head[i];
  }

  /** Escaping and decoding is the identity. */
  lemma {:induction false} DecodeEscape(s: seq<u8>)
    ensures Escaped(Escape(s)) && Decoded(Escape(s)) == s
  {
    if s != [] {
      DecodeEscape(s[1..]);
      EscapedByteDecodes(s[0], Escape(s[1..]));
      assert s == [s[0]] + s[1..];
    }
  }

  /** A quote in a literal is a quote in the string. */
  lemma {:induction false} QuoteSurvivesDecoding(e: seq<u8>, k: nat)
    requires Escaped(e) && k < |e| && e[k] == QUOTE
    ensures QUOTE in Decoded(e)
    decreases |e|
  {
    if e[0] != BACKSLASH {
      QuoteSurvivesDecoding(e[1..], k - 1);
    } else if IsShortEscape(e[1]) {
      if k == 1 {
        assert Decoded(e)[0] == QUOTE;
      } else {
        QuoteSurvivesDecoding(e[2..], k - 2);
      }
    } else {
      QuoteSurvivesDecoding(e[6..], k - 6);
    }
  }

  // ---- Legal texts ----

  predicate IsSpace(b: u8) {
    b == 0x20 || b == 0x09 || b == 0x0A || b == 0x0D
  }

  predicate Blank(ws: seq<u8>) {
    forall i :: 0 <= i < |ws| ==> IsSpace(ws[i])
  }

  predicate IsDigit(b: u8) {
    0x30 <= b <= 0x39
  }

  /**
   * The characters of section 6 of RFC 8259: digits, signs, point and exponent; a number starts with a digit or `-`.
   */
  predicate LegalNumber(digits: seq<u8>) {
    && digits != []
    && (digits[0] == 0x2D || IsDigit(digits[0]))
    && forall i :: 0 <= i < |digits| ==>
      IsDigit(digits[i]) || digits[i] in [0x2B, 0x2D, 0x2E, 0x45, 0x65]
  }

  predicate Legal(v: Value)
    decreases v
  {
    match v
    case Number(digits) => LegalNumber(digits)
    case Text(escaped) => Escaped(escaped)
    case Arr(inner, entries) => Blank(inner) && LegalEntries(entries, false)
    case Obj(inner, entries) => Blank(inner) && LegalEntries(entries, true)
    case _ => true
  }

  predicate LegalEntries(es: seq<Entry>, members: bool)
    decreases es
  {
    es == [] || (es[0].Member? == members && LegalEntry(es[0]) && LegalEntries(es[1..], members))
  }

  predicate LegalEntry(e: Entry)
    decreases e
  {
    && Blank(e.lead) && Blank(e.trail) && Legal(e.value)
    && (e.Member? ==> Escaped(e.name) && Blank(e.gap) && Blank(e.pad))
  }

  predicate LegalDocument(d: Document) {
    Blank(d.lead) && Legal(d.value) && Blank(d.trail)
  }

  // ---- Printing ----

  /** A string literal, or a single byte outside of one. */
  datatype Token = Quoted(escaped: seq<u8>) | Mark(byte: u8)

  function Marks(bs: seq<u8>, rest: seq<Token>): seq<Token> {
    if bs == [] then rest else [Mark(bs[0])] + Marks(bs[1..], rest)
  }

  /** The tokens of a value, followed by `rest`. */
  function Tokens(v: Value, rest: seq<Token>): seq<Token>
    decreases v
  {
    match v
    case Null => Marks(NULL, rest)
    case True => Marks(TRUE, rest)
    case False => Marks(FALSE, rest)
    case Number(digits) => Marks(digits, rest)
    case Text(escaped) => [Quoted(escaped)] + rest
    case Arr(inner, entries) =>
      [Mark(OPEN_BRACKET)] + Marks(inner, EntriesTokens(entries, [Mark(CLOSE_BRACKET)] + rest))
    case Obj(inner, entries) =>
      [Mark(OPEN_BRACE)] + Marks(inner, EntriesTokens(entries, [Mark(CLOSE_BRACE)] + rest))
  }

  function EntriesTokens(es: seq<Entry>, rest: seq<Token>): seq<Token>
    decreases es
  {
    if es == [] then rest
    else
      var others := EntriesTokens(es[1..], rest);
      EntryTokens(es[0], if |es| == 1 then others else [Mark(COMMA)] + others)
  }

  function EntryTokens(e: Entry, rest: seq<Token>): seq<Token>
    decreases e
  {
    match e
    case Item(lead, value, trail) => Marks(lead, Tokens(value, Marks(trail, rest)))
    case Member(lead, name, gap, pad, value, trail) =>
      Marks(lead, [Quoted(name)] + Marks(gap, [Mark(COLON)] + Marks(pad, Tokens(value, Marks(trail, rest)))))
  }

  function TokenBytes(t: Token): seq<u8> {
    match t
    case Quoted(escaped) => [QUOTE] + escaped + [QUOTE]
    case Mark(byte) => [byte]
  }

  function Bytes(ts: seq<Token>): seq<u8> {
    if ts == [] then [] else TokenBytes(ts[0]) + Bytes(ts[1..])
  }

  function Print(d: Document): seq<u8> {
    Bytes(Marks(d.lead, Tokens(d.value, Marks(d.trail, []))))
  }
}
