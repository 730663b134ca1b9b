/** Reset tokens: 32 random bytes in the URL-safe base64 alphabet without padding (section 5 of
    RFC 4648), and the check a token must pass before the store is asked about it. Decoding is
    lenient: line breaks are skipped, and the bits left over at the end need not be zero. */
module ResetTokens {
  import opened Text

  const TOKEN_BYTES: nat := 32
  const TOKEN_LENGTH: nat := 43

  type Octet = n: nat | n < 256
  type Sextet = n: nat | n < 64

  /** What GenerateToken draws. */
  type Raw = raw: seq<Octet> | |raw| == TOKEN_BYTES witness seq(TOKEN_BYTES, _ => 0)

  // ---------- The alphabet ----------

  function Symbol(n: Sextet): char {
    if n < 26 then 'A' + n as char
    else if n < 52 then 'a' + (n - 26) as char
    else if n < 62 then '0' + (n - 52) as char
    else if n == 62 then '-' else '_'
  }

  predicate IsSymbol(c: char) {
    'A' <= c <= 'Z' || 'a' <= c <= 'z' || '0' <= c <= '9' || c == '-' || c == '_'
  }

  function ValueOf(c: char): Sextet
    requires IsSymbol(c)
  {
    if 'A' <= c <= 'Z' then c as int - 'A' as int
    else if 'a' <= c <= 'z' then c as int - 'a' as int + 26
    else if '0' <= c <= '9' then c as int - '0' as int + 52
    else if c == '-' then 62 else 63
  }

  lemma SymbolsBack()
    ensures forall n: Sextet :: IsSymbol(Symbol(n)) && ValueOf(Symbol(n)) == n
  {}

  // ---------- Encoding and decoding ----------

  function Encode(raw: seq<Octet>): string {
    if |raw| == 0 then ""
    else if |raw| == 1 then [Symbol(raw[0] / 4), Symbol(raw[0] % 4 * 16)]
    else if |raw| == 2 then
      [Symbol(raw[0] / 4), Symbol(raw[0] % 4 * 16 + raw[1] / 16), Symbol(raw[1] % 16 * 4)]
    else
      [Symbol(raw[0] / 4), Symbol(raw[0] % 4 * 16 + raw[1] / 16),
       Symbol(raw[1] % 16 * 4 + raw[2] / 64), Symbol(raw[2] % 64)] + Encode(raw[3..])
  }

  /** What is left of the text once its line breaks are skipped. */
  function Significant(s: string): string {
    if s == "" then ""
    else (if s[0] == '\n' || s[0] == '\r' then "" else [s[0]]) + Significant(s[1..])
  }

  /** Whole quanta of four symbols, then two or three for the last bytes; one alone says nothing. */
  function DecodeQuanta(s: string): Option<seq<Octet>> {
    if |s| == 0 then Some([])
    else if |s| == 1 || !IsSymbol(s[0]) || !IsSymbol(s[1]) then None
    else
      var first := ValueOf(s[0]) * 4 + ValueOf(s[1]) / 16;
      if |s| == 2 then Some([first])
      else if !IsSymbol(s[2]) then None
      else
        var second := ValueOf(s[1]) % 16 * 16 + ValueOf(s[2]) / 4;
        if |s| == 3 then Some([first, second])
        else if !IsSymbol(s[3]) then None
        else
          match DecodeQuanta(s[4..])
          case None => None
          case Some(rest) => Some([first, second, ValueOf(s[2]) % 4 * 64 + ValueOf(s[3])] + rest)
  }

  function Decode(s: string): Option<seq<Octet>> {
    DecodeQuanta(Significant(s))
  }

  predicate ValidToken(token: string) {
    Trim(token) == token && token != "" && Decode(token).Some? && |Decode(token).value| == TOKEN_BYTES
  }

  // ---------- What is generated is accepted, and stands for its bytes alone ----------

  ghost predicate AllSymbols(s: string) {
    forall i :: 0 <= i < |s| ==> IsSymbol(s[i])
  }

  lemma {:induction false} EncodedSymbols(raw: seq<Octet>)
    ensures AllSymbols(Encode(raw)) && |Encode(raw)| == (|raw| * 4 + 2) / 3
    decreases |raw|
  {
    SymbolsBack();
    hide Symbol, IsSymbol;
    if |raw| >= 3 { EncodedSymbols(raw[3..]); }
  }

  lemma {:induction false} SymbolsAreSignificant(s: string)
    requires AllSymbols(s)
    ensures Significant(s) == s
  {
    if s != "" { SymbolsAreSignificant(s[1..]); }
  }

  /** Three bytes cut into four sextets and put together again. */
  lemma QuantumBits(a: Octet, b: Octet, c: Octet)
    ensures a / 4 * 4 + (a % 4 * 16 + b / 16) / 16 == a
    ensures (a % 4 * 16 + b / 16) % 16 * 16 + (b % 16 * 4 + c / 64) / 4 == b
    ensures (b % 16 * 4 + c / 64) % 4 * 64 + c % 64 == c
  {}

  lemma DecodeLast(a: Octet, b: Octet)
    ensures DecodeQuanta("") == Some([])
    ensures DecodeQuanta([Symbol(a / 4), Symbol(a % 4 * 16)]) == Some([a])
    ensures DecodeQuanta([Symbol(a / 4), Symbol(a % 4 * 16 + b / 16), Symbol(b % 16 * 4)]) == Some([a, b])
  {
    SymbolsBack();
    QuantumBits(a, 0, 0);
    QuantumBits(a, b, 0);
    hide Symbol, ValueOf, IsSymbol;
  }

  lemma DecodeFirst(a: Octet, b: Octet, c: Octet, text: string)
    requires DecodeQuanta(text).Some?
    ensures DecodeQuanta(
              [Symbol(a / 4), Symbol(a % 4 * 16 + b / 16), Symbol(b % 16 * 4 + c / 64), Symbol(c % 64)] + text)
         == Some([a, b, c] + DecodeQuanta(text).value)
  {
    SymbolsBack();
    QuantumBits(a, b, c);
    hide Symbol, ValueOf, IsSymbol;
    var all := [Symbol(a / 4), Symbol(a % 4 * 16 + b / 16), Symbol(b % 16 * 4 + c / 64), Symbol(c % 64)] + text;
    assert all[4..] == text;
  }

  lemma {:induction false} DecodeEncodedQuanta(raw: seq<Octet>)
    ensures DecodeQuanta(Encode(raw)) == Some(raw)
    decreases |raw|
  {
    hide Symbol, ValueOf, IsSymbol, DecodeQuanta;
    if |raw| == 0 {
      DecodeLast(0, 0);
    } else if |raw| == 1 {
      DecodeLast(raw[0], 0);
      assert raw == [raw[0]];
    } else if |raw| == 2 {
      DecodeLast(raw[0], raw[1]);
      assert raw == [raw[0], raw[1]];
    } else {
      DecodeEncodedQuanta(raw[3..]);
      DecodeFirst(raw[0], raw[1], raw[2], Encode(raw[3..]));
      assert raw == [raw[0], raw[1], raw[2]] + raw[3..];
    }
  }

  /** Every byte string comes back from its encoding. */
  lemma DecodeEncode(raw: seq<Octet>)
    ensures Decode(Encode(raw)) == Some(raw)
  {
    EncodedSymbols(raw);
    SymbolsAreSignificant(Encode(raw));
    DecodeEncodedQuanta(raw);
  }

  lemma {:induction false} TrimmedSymbols(s: string)
    requires AllSymbols(s)
    ensures Trim(s) == s
  {}

  /** A generated token passes the check, and different bytes give different tokens. */
  lemma GeneratedIsValid(raw: Raw, other: Raw)
    ensures ValidToken(Encode(raw)) && |Encode(raw)| == TOKEN_LENGTH
    ensures Encode(raw) == Encode(other) <==> raw == other
  {
    EncodedSymbols(raw);
    TrimmedSymbols(Encode(raw));
    DecodeEncode(raw);
    DecodeEncode(other);
  }

  // ---------- Exactly which texts pass ----------

  lemma {:induction false} DecodesWhen(s: string)
    ensures DecodeQuanta(s).Some? <==> AllSymbols(s) && |s| % 4 != 1
    ensures DecodeQuanta(s).Some? ==> |DecodeQuanta(s).value| == |s| * 3 / 4
    decreases |s|
  {
    hide ValueOf, IsSymbol;
    if |s| >= 4 {
      DecodesWhen(s[4..]);
      assert forall i :: 4 <= i < |s| ==> s[i] == s[4..][i - 4];
    }
  }

  /** The check passes exactly the texts of 43 symbols, line breaks between them not counted. */
  lemma ValidTokenIs(token: string)
    ensures ValidToken(token) <==>
              Trim(token) == token && |Significant(token)| == TOKEN_LENGTH && AllSymbols(Significant(token))
  {
    DecodesWhen(Significant(token));
  }
}
