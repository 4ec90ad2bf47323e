/** The byte codecs of Web Push: base64url (section 5 of RFC 4648) and ECDSA signatures. */
module WebPush {
  import opened Common

  type Byte = b: int | 0 <= b < 256 witness 0
  type Sextet = v: int | 0 <= v < 64 witness 0

  // ---------------------------------------------------------------- btoa and atob

  /** The standard alphabet. */
  function Symbol(v: Sextet): char {
    if v < 26 then ('A' as int + v) as char
    else if v < 52 then ('a' as int + v - 26) as char
    else if v < 62 then ('0' as int + v - 52) as char
    else if v == 62 then '+' else '/'
  }

  function SymbolValue(c: char): Option<Sextet> {
    if 'A' <= c <= 'Z' then Some(c as int - 'A' as int)
    else if 'a' <= c <= 'z' then Some(c as int - 'a' as int + 26)
    else if '0' <= c <= '9' then Some(c as int - '0' as int + 52)
    else if c == '+' then Some(62)
    else if c == '/' then Some(63)
    else None
  }

  /** Byte i, and zero bits past the end. */
  function ByteOrZero(bytes: seq<Byte>, i: nat): Byte {
    if i < |bytes| then bytes[i] else 0
  }

  /** The r-th six-bit value of three bytes. */
  function ValueIn(a: int, b: int, c: int, r: nat): Sextet
    requires 0 <= a < 256 && 0 <= b < 256 && 0 <= c < 256 && r < 4
  {
    match r
    case 0 => a / 4
    case 1 => a % 4 * 16 + b / 16
    case 2 => b % 16 * 4 + c / 64
    case _ => c % 64
  }

  /** The r-th byte of four six-bit values, from the r-th and the next of them. */
  function ByteIn(v: int, w: int, r: nat): Byte
    requires 0 <= v < 64 && 0 <= w < 64 && r < 3
  {
    match r
    case 0 => v * 4 + w / 16
    case 1 => v % 16 * 16 + w / 4
    case _ => v % 4 * 64 + w
  }

  function ValueAt(bytes: seq<Byte>, k: nat): Sextet {
    var g := 3 * (k / 4);
    ValueIn(ByteOrZero(bytes, g), ByteOrZero(bytes, g + 1), ByteOrZero(bytes, g + 2), k % 4)
  }

  /** As many values as it takes to hold all bits. */
  function Split(bytes: seq<Byte>): seq<Sextet> {
    seq((4 * |bytes| + 2) / 3, k requires 0 <= k => ValueAt(bytes, k))
  }

  function ByteAt(vs: seq<Sextet>, i: nat): Byte
    requires 4 * (i / 3) + i % 3 + 1 < |vs|
  {
    ByteIn(vs[4 * (i / 3) + i % 3], vs[4 * (i / 3) + i % 3 + 1], i % 3)
  }

  /** The whole bytes of the values; bits left over are dropped, and a single value in the last group is an error. */
  function Join(vs: seq<Sextet>): Option<seq<Byte>> {
    if |vs| % 4 == 1 then None
    else Some(seq(3 * |vs| / 4, i requires 0 <= i < 3 * |vs| / 4 => ByteAt(vs, i)))
  }

  function Symbols(vs: seq<Sextet>): (s: string)
    ensures |s| == |vs| && forall i | 0 <= i < |s| :: s[i] == Symbol(vs[i])
  {
    seq(|vs|, i requires 0 <= i < |vs| => Symbol(vs[i]))
  }

  /** None when some character is not a symbol. */
  function Values(s: string): Option<seq<Sextet>> {
    if exists i | 0 <= i < |s| :: SymbolValue(s[i]).None? then None
    else Some(seq(|s|, i requires 0 <= i < |s| => OrElse(SymbolValue(s[i]), 0)))
  }

  function Btoa(bytes: seq<Byte>): string {
    Symbols(Split(bytes)) + (if |bytes| % 3 == 0 then "" else if |bytes| % 3 == 1 then "==" else "=")
  }

  /** Unpadded text back to bytes. */
  function Ungroup(s: string): Option<seq<Byte>> {
    if Values(s).None? then None else Join(Values(s).value)
  }

  /** A multiple of four symbols may end in one or two padding signs. */
  function PaddingOf(s: string): (k: nat)
    ensures k <= |s|
  {
    var n := |s|;
    if n % 4 != 0 || n == 0 || s[n - 1] != '=' then 0 else if s[n - 2] != '=' then 1 else 2
  }

  function Unpad(s: string): string {
    s[..|s| - PaddingOf(s)]
  }

  /** The white space that atob passes over. */
  predicate White(c: char) {
    c == '\t' || c == '\n' || c == 12 as char || c == '\r' || c == ' '
  }

  function DropWhite(s: string): (r: string)
    ensures |r| <= |s|
  {
    if s == "" then "" else if White(s[0]) then DropWhite(s[1..]) else [s[0]] + DropWhite(s[1..])
  }

  /** atob; None is the thrown error. */
  function Atob(s: string): Option<seq<Byte>> {
    Ungroup(Unpad(DropWhite(s)))
  }

  // ---------------------------------------------------------------- base64url

  function Replace(s: string, from: char, to: char): (r: string)
    ensures |r| == |s| && forall i | 0 <= i < |s| :: r[i] == if s[i] == from then to else s[i]
  {
    seq(|s|, i requires 0 <= i < |s| => if s[i] == from then to else s[i])
  }

  function StripPadding(s: string): string {
    if s != "" && s[|s| - 1] == '=' then StripPadding(s[..|s| - 1]) else s
  }

  function Repeat(c: char, n: nat): (s: string)
    ensures |s| == n && forall i | 0 <= i < n :: s[i] == c
  {
    seq(n, _ => c)
  }

  /** The url-safe alphabet. */
  predicate UrlSafe(c: char) {
    'A' <= c <= 'Z' || 'a' <= c <= 'z' || '0' <= c <= '9' || c == '-' || c == '_'
  }

  predicate AllSafe(s: string) {
    forall c | c in s :: UrlSafe(c)
  }

  function ToUrlSafe(s: string): string {
    Replace(Replace(s, '+', '-'), '/', '_')
  }

  function FromUrlSafe(s: string): string {
    Replace(Replace(s, '-', '+'), '_', '/')
  }

  function Encoded(bytes: seq<Byte>): string {
    StripPadding(ToUrlSafe(Btoa(bytes)))
  }

  /** How many padding signs fill the last group of four. */
  function Missing(n: nat): (k: nat)
    ensures k < 4 && (n + k) % 4 == 0
  {
    (4 - n % 4) % 4
  }

  function Padded(symbols: string, k: nat): string {
    symbols + Repeat('=', k)
  }

  function Decoded(s: string): Option<seq<Byte>> {
    Atob(Padded(FromUrlSafe(s), Missing(|s|)))
  }

  /** The binary string, one character per byte. */
  method ToBinary(data: seq<Byte>) returns (binary: seq<Byte>)
    ensures binary == data
  {
    binary := [];
    for n := 0 to |data|
      invariant binary == data[..n]
    {
      binary := binary + [data[n]];
    }
  }

  /** The byte array copied from a binary string. */
  method ToBytes(binary: seq<Byte>) returns (bytes: array<Byte>)
    ensures bytes[..] == binary && fresh(bytes)
  {
    bytes := new Byte[|binary|](_ => 0);
    for index := 0 to |binary|
      invariant bytes[..index] == binary[..index]
    {
      bytes[index] := binary[index];
    }
  }

  /** base64urlEncode: btoa and the three replacements. The text decodes to the data and needs no escaping. */
  method Base64UrlEncode(data: seq<Byte>) returns (text: string)
    ensures text == Encoded(data)
    ensures Decoded(text) == Some(data)
    ensures |text| == (4 * |data| + 2) / 3 && AllSafe(text)
  {
    var binary := ToBinary(data);
    RoundTripTheorem(data);
    EncodedIsSafe(data);
    text := StripPadding(ToUrlSafe(Btoa(binary)));
  }

  /** base64urlDecode: atob of the padded text. None is the thrown error. */
  method Base64UrlDecode(input: string) returns (bytes: Option<seq<Byte>>)
    ensures bytes == Decoded(input)
    ensures SafeText(input) ==> (bytes.Some? <==> Accepted(input))
    ensures bytes.Some? && SafeText(input) ==> |bytes.value| == 3 * |DropWhite(input)| / 4
  {
    if SafeText(input) {
      DecodeTheorem(input);
    }
    var normalized := FromUrlSafe(input);
    var binary := Atob(Padded(normalized, Missing(|normalized|)));
    if binary.None? {
      return None;
    }
    var copy := ToBytes(binary.value);
    bytes := Some(copy[..]);
  }

  /** The alphabet of table 1 in section 4 of RFC 4648, in eight rows. */
  const ALPHABET :=
    ["ABCDEFGH", "IJKLMNOP", "QRSTUVWX", "YZabcdef", "ghijklmn", "opqrstuv", "wxyz0123", "456789+/"]

  lemma SymbolsOfAlphabet(v: Sextet)
    ensures |ALPHABET| == 8 && |ALPHABET[v / 8]| == 8 && Symbol(v) == ALPHABET[v / 8][v % 8]
  {
    match v / 8
    case 0 =>
    case 1 =>
    case 2 =>
    case 3 =>
    case 4 =>
    case 5 =>
    case 6 =>
    case _ =>
  }

  /** The value of four symbols together, and of three bytes: the first is the most significant. */
  function Word(a: int, b: int, c: int, d: int, base: int): int {
    ((a * base + b) * base + c) * base + d
  }

  /** Three bytes and the four values they split into spell the same 24-bit number. */
  lemma SameWord(a: Byte, b: Byte, c: Byte)
    ensures Word(ValueIn(a, b, c, 0), ValueIn(a, b, c, 1), ValueIn(a, b, c, 2), ValueIn(a, b, c, 3), 64) ==
            Word(0, a, b, c, 256)
  {
  }

  lemma SymbolRoundTrip(v: Sextet)
    ensures SymbolValue(Symbol(v)) == Some(v)
    ensures Symbol(v) != '=' && Symbol(v) != '-' && Symbol(v) != '_'
  {
  }

  lemma SymbolsRoundTrip(vs: seq<Sextet>)
    ensures Values(Symbols(vs)).Some? && Values(Symbols(vs)).value == vs
    ensures forall c | c in Symbols(vs) :: c != '=' && c != '-' && c != '_'
  {
    forall i | 0 <= i < |vs|
      ensures SymbolValue(Symbols(vs)[i]) == Some(vs[i])
      ensures Symbols(vs)[i] != '=' && Symbols(vs)[i] != '-' && Symbols(vs)[i] != '_'
    {
      SymbolRoundTrip(vs[i]);
    }
  }

  lemma Digits(high: int, low: int, base: int)
    requires base in {4, 16, 64} && 0 <= low < base
    ensures (high * base + low) / base == high && (high * base + low) % base == low
  {
    assert base == 4 || base == 16 || base == 64;
    if base == 4 {
      assert (high * 4 + low) / 4 == high;
    } else if base == 16 {
      assert (high * 16 + low) / 16 == high;
    } else {
      assert (high * 64 + low) / 64 == high;
    }
  }

  lemma BitsSurvive(a: int, b: int, c: int, r: nat)
    requires 0 <= a < 256 && 0 <= b < 256 && 0 <= c < 256 && r < 3
    ensures ByteIn(ValueIn(a, b, c, r), ValueIn(a, b, c, r + 1), r) == if r == 0 then a else if r == 1 then b else c
  {
    if r == 0 {
      Digits(a % 4, b / 16, 16);
    } else if r == 1 {
      Digits(a % 4, b / 16, 16);
      Digits(b % 16, c / 64, 4);
    } else {
      Digits(b % 16, c / 64, 4);
    }
  }

  lemma ByteSurvives(bytes: seq<Byte>, q: nat, r: nat)
    requires 3 * q + r < |bytes| && r < 3
    ensures 4 * q + r + 1 < |Split(bytes)|
    ensures ByteIn(Split(bytes)[4 * q + r], Split(bytes)[4 * q + r + 1], r) == bytes[3 * q + r]
  {
    assert (4 * q + r) / 4 == q && (4 * q + r) % 4 == r;
    assert (4 * q + r + 1) / 4 == q && (4 * q + r + 1) % 4 == r + 1;
    var a, b, c := ByteOrZero(bytes, 3 * q), ByteOrZero(bytes, 3 * q + 1), ByteOrZero(bytes, 3 * q + 2);
    assert Split(bytes)[4 * q + r] == ValueIn(a, b, c, r);
    assert Split(bytes)[4 * q + r + 1] == ValueIn(a, b, c, r + 1);
    BitsSurvive(a, b, c, r);
  }

  /** Splitting loses nothing, for every number of bytes. */
  lemma SplitJoins(bytes: seq<Byte>)
    ensures |Split(bytes)| == (4 * |bytes| + 2) / 3 && |Split(bytes)| % 4 != 1
    ensures Join(Split(bytes)) == Some(bytes)
  {
    assert 3 * |Split(bytes)| / 4 == |bytes|;
    forall i | 0 <= i < |bytes|
      ensures ByteAt(Split(bytes), i) == bytes[i]
    {
      ByteSurvives(bytes, i / 3, i % 3);
    }
    assert Join(Split(bytes)).value == bytes;
  }

  lemma {:induction false} StripAfter(s: string, padding: string)
    requires forall c | c in s :: c != '='
    requires forall c | c in padding :: c == '='
    ensures StripPadding(s + padding) == s
    decreases |padding|
  {
    if padding == "" {
      assert s + padding == s;
      assert s != "" ==> s[|s| - 1] in s;
    } else {
      var n := |padding| - 1;
      assert (s + padding)[..|s| + n] == s + padding[..n];
      assert padding[n] in padding;
      assert forall i | 0 <= i < n :: padding[..n][i] == padding[i] && padding[i] in padding;
      StripAfter(s, padding[..n]);
    }
  }

  /** What the encoding is: the symbols of btoa with two of them replaced, and no padding. */
  lemma EncodedForm(bytes: seq<Byte>)
    ensures Encoded(bytes) == ToUrlSafe(Symbols(Split(bytes)))
  {
    var symbols := Symbols(Split(bytes));
    var padding := if |bytes| % 3 == 0 then "" else if |bytes| % 3 == 1 then "==" else "=";
    SymbolsRoundTrip(Split(bytes));
    assert ToUrlSafe(symbols + padding) == ToUrlSafe(symbols) + padding;
    forall i | 0 <= i < |symbols|
      ensures ToUrlSafe(symbols)[i] != '='
    {
      assert symbols[i] in symbols;
    }
    StripAfter(ToUrlSafe(symbols), padding);
  }

  lemma SymbolIsSafe(v: Sextet)
    ensures UrlSafe(if Symbol(v) == '+' then '-' else if Symbol(v) == '/' then '_' else Symbol(v))
  {
  }

  lemma SymbolsAreSafe(vs: seq<Sextet>)
    ensures |ToUrlSafe(Symbols(vs))| == |vs| && AllSafe(ToUrlSafe(Symbols(vs)))
  {
    forall i | 0 <= i < |vs|
      ensures UrlSafe(ToUrlSafe(Symbols(vs))[i])
    {
      SymbolIsSafe(vs[i]);
    }
  }

  /**
   What the text is: symbol k of the encoding is the url-safe form of the alphabet's character for the
   k-th six bits, most significant first, of the bytes followed by zero bits.
   */
  lemma EncodingTheorem(bytes: seq<Byte>, k: nat)
    requires k < |Encoded(bytes)|
    ensures |Encoded(bytes)| == (4 * |bytes| + 2) / 3
    ensures var g := k / 4 * 3;
            var word := Word(0, ByteOrZero(bytes, g), ByteOrZero(bytes, g + 1), ByteOrZero(bytes, g + 2), 256);
            var v := word / (match k % 4 case 0 => 262_144 case 1 => 4096 case 2 => 64 case _ => 1) % 64;
            && |ALPHABET| == 8 && |ALPHABET[v / 8]| == 8
            && Encoded(bytes)[k] == if v == 62 then '-' else if v == 63 then '_' else ALPHABET[v / 8][v % 8]
  {
    EncodedForm(bytes);
    EncodedIsSafe(bytes);
    var g := k / 4 * 3;
    var a, b, c := ByteOrZero(bytes, g), ByteOrZero(bytes, g + 1), ByteOrZero(bytes, g + 2);
    SixBits(a, b, c, k % 4);
    assert Split(bytes)[k] == ValueIn(a, b, c, k % 4);
    SymbolsOfAlphabet(Split(bytes)[k]);
  }

  lemma SixBits(a: Byte, b: Byte, c: Byte, r: nat)
    requires r < 4
    ensures ValueIn(a, b, c, r) ==
            Word(0, a, b, c, 256) / (match r case 0 => 262_144 case 1 => 4096 case 2 => 64 case _ => 1) % 64
  {
    SameWord(a, b, c);
    BaseSixtyFour(ValueIn(a, b, c, 0), ValueIn(a, b, c, 1), ValueIn(a, b, c, 2), ValueIn(a, b, c, 3), r);
  }

  lemma BaseSixtyFour(v0: Sextet, v1: Sextet, v2: Sextet, v3: Sextet, r: nat)
    requires r < 4
    ensures Word(v0, v1, v2, v3, 64) / (match r case 0 => 262_144 case 1 => 4096 case 2 => 64 case _ => 1) % 64 ==
            match r case 0 => v0 case 1 => v1 case 2 => v2 case _ => v3
  {
    var word := Word(v0, v1, v2, v3, 64);
    match r
    case 0 => assert word / 262_144 == v0;
    case 1 => assert word / 4096 == v0 * 64 + v1;
    case 2 => assert word / 64 == (v0 * 64 + v1) * 64 + v2;
    case _ =>
  }

  lemma EncodedIsSafe(bytes: seq<Byte>)
    ensures AllSafe(Encoded(bytes))
    ensures |Encoded(bytes)| == (4 * |bytes| + 2) / 3
  {
    EncodedForm(bytes);
    SymbolsAreSafe(Split(bytes));
  }

  /** Every byte string survives the url-safe codec. */
  lemma RoundTripTheorem(bytes: seq<Byte>)
    ensures Decoded(Encoded(bytes)) == Some(bytes)
  {
    EncodedForm(bytes);
    SplitJoins(bytes);
    SymbolsDecode(Split(bytes));
  }

  lemma SymbolsDecode(vs: seq<Sextet>)
    requires |vs| % 4 != 1
    ensures Decoded(ToUrlSafe(Symbols(vs))) == Join(vs)
  {
    SymbolsRoundTrip(vs);
    BackToStandard(Symbols(vs));
    AtobOfSymbols(vs, Missing(|vs|));
  }

  lemma BackToStandard(symbols: string)
    requires forall c | c in symbols :: c != '-' && c != '_'
    ensures FromUrlSafe(ToUrlSafe(symbols)) == symbols
  {
    forall i | 0 <= i < |symbols|
      ensures FromUrlSafe(ToUrlSafe(symbols))[i] == symbols[i]
    {
      assert symbols[i] in symbols;
    }
  }

  /** What atob makes of symbols followed by padding signs: only one or two of them, filling a group, are taken off. */
  lemma AtobOfSymbols(vs: seq<Sextet>, k: nat)
    requires k < 4
    ensures Atob(Padded(Symbols(vs), k)) == if k == 0 || (k <= 2 && (|vs| + k) % 4 == 0) then Join(vs) else None
  {
    SymbolsRoundTrip(vs);
    UnpadSymbols(Symbols(vs), k);
    SymbolsAreBlack(vs, k);
    NoWhite(Padded(Symbols(vs), k));
  }

  lemma SymbolsAreBlack(vs: seq<Sextet>, k: nat)
    ensures forall i | 0 <= i < |vs| + k :: !White(Padded(Symbols(vs), k)[i])
  {
    forall i | 0 <= i < |vs|
      ensures !White(Symbols(vs)[i])
    {
      SymbolRoundTrip(vs[i]);
    }
  }

  lemma UnpadSymbols(symbols: string, k: nat)
    requires k < 4 && forall c | c in symbols :: c != '='
    ensures if k == 0 || (k <= 2 && (|symbols| + k) % 4 == 0) then Unpad(Padded(symbols, k)) == symbols
            else Ungroup(Unpad(Padded(symbols, k))) == None
  {
    var padded := Padded(symbols, k);
    assert padded[..|symbols|] == symbols;
    assert symbols != "" ==> symbols[|symbols| - 1] in symbols;
    assert forall i | |symbols| <= i < |padded| :: padded[i] == '=' && SymbolValue(padded[i]).None?;
    if k == 0 {
      assert padded == symbols;
    } else if k <= 2 && (|symbols| + k) % 4 == 0 {
      assert Unpad(padded) == symbols;
    } else {
      assert |Unpad(padded)| > |symbols| && SymbolValue(Unpad(padded)[|symbols|]).None?;
    }
  }

  lemma {:induction false} NoWhite(s: string)
    requires forall i | 0 <= i < |s| :: !White(s[i])
    ensures DropWhite(s) == s
  {
    if s != "" {
      NoWhite(s[1..]);
    }
  }

  // ---------------------------------------------------------------- which texts decode

  predicate SafeText(s: string) {
    forall c | c in s :: UrlSafe(c) || White(c)
  }

  /**
   For n characters, m of them symbols: a last group of one is refused, and white space counts towards
   the padding.
   */
  predicate Fits(n: nat, m: nat) {
    m % 4 != 1 && ((n - m) % 4 == 0 || n % 4 == 0)
  }

  predicate Accepted(s: string) {
    Fits(|s|, |DropWhite(s)|)
  }

  /** The values of a url-safe text. */
  function ValuesOf(s: string): (vs: seq<Sextet>)
    ensures |vs| == |s|
  {
    seq(|s|, i requires 0 <= i < |s| => OrElse(SymbolValue(FromUrlSafe(s)[i]), 0))
  }

  lemma ValuesRoundTrip(s: string)
    requires AllSafe(s)
    ensures FromUrlSafe(s) == Symbols(ValuesOf(s)) && s == ToUrlSafe(Symbols(ValuesOf(s)))
  {
    forall i | 0 <= i < |s|
      ensures FromUrlSafe(s)[i] == Symbols(ValuesOf(s))[i] && s[i] == ToUrlSafe(Symbols(ValuesOf(s)))[i]
    {
      assert s[i] in s;
      SafeSymbol(s[i]);
    }
  }

  lemma SafeSymbol(c: char)
    requires UrlSafe(c)
    ensures var d := if c == '-' then '+' else if c == '_' then '/' else c;
            SymbolValue(d).Some? && Symbol(SymbolValue(d).value) == d
  {
  }

  lemma {:induction false} DroppedIsSafe(s: string)
    requires forall c | c in s :: UrlSafe(c) || White(c)
    ensures AllSafe(DropWhite(s))
  {
    if s != "" {
      assert s[0] in s;
      DroppedIsSafe(s[1..]);
    }
  }

  lemma {:induction false} DropCommutes(s: string, k: nat)
    ensures DropWhite(Padded(FromUrlSafe(s), k)) == Padded(FromUrlSafe(DropWhite(s)), k)
  {
    if s == "" {
      assert Padded(FromUrlSafe(s), k) == Repeat('=', k) == Padded(FromUrlSafe(DropWhite(s)), k);
      NoWhite(Repeat('=', k));
    } else {
      DropCommutes(s[1..], k);
      assert s == [s[0]] + s[1..];
      PaddedStep(s[0], s[1..], k);
      PaddedStep(s[0], DropWhite(s[1..]), k);
    }
  }

  lemma PaddedStep(c: char, s: string, k: nat)
    ensures var d := FromUrlSafe([c])[0];
            White(d) == White(c) && Padded(FromUrlSafe([c] + s), k) == [d] + Padded(FromUrlSafe(s), k)
  {
    FromUrlSafeStep(c, s);
    var d := FromUrlSafe([c])[0];
    assert Padded([d] + FromUrlSafe(s), k) == [d] + Padded(FromUrlSafe(s), k);
  }

  lemma FromUrlSafeStep(c: char, s: string)
    ensures var d := FromUrlSafe([c])[0];
            FromUrlSafe([c] + s) == [d] + FromUrlSafe(s) && (White(d) <==> White(c))
  {
  }

  /** Which url-safe texts decode, white space included, and to what: the bytes of their symbols. */
  lemma DecodeTheorem(s: string)
    requires SafeText(s)
    ensures Decoded(s).Some? <==> Accepted(s)
    ensures Accepted(s) ==> Decoded(s) == Decoded(DropWhite(s)) && |Decoded(s).value| == 3 * |DropWhite(s)| / 4
  {
    DroppedIsSafe(s);
    DropsOnce(s);
    DecodedAs(s, DropWhite(s), |s|, |DropWhite(s)|);
  }

  lemma DecodedAs(s: string, t: string, n: nat, m: nat)
    requires DropWhite(s) == t == DropWhite(t) && AllSafe(t) && n == |s| && m == |t|
    ensures Decoded(s).Some? <==> Fits(n, m)
    ensures Decoded(s).Some? ==> Decoded(s) == Decoded(t) && |Decoded(s).value| == 3 * m / 4
  {
    DecodedValues(s, t, n);
    DecodedValues(t, t, m);
    JoinLength(ValuesOf(t));
  }

  lemma JoinLength(vs: seq<Sextet>)
    ensures Join(vs).Some? <==> |vs| % 4 != 1
    ensures Join(vs).Some? ==> |Join(vs).value| == 3 * |vs| / 4
  {
  }

  lemma DecodedValues(s: string, t: string, n: nat)
    requires t == DropWhite(s) && AllSafe(t) && n == |s|
    ensures Decoded(s) == if (n - |t|) % 4 == 0 || n % 4 == 0 then Join(ValuesOf(t)) else None
  {
    DecodedDrops(s, t, Missing(n));
    SafeSymbolsDecode(t, n);
  }

  lemma DecodedDrops(s: string, t: string, k: nat)
    requires t == DropWhite(s) && k == Missing(|s|)
    ensures Decoded(s) == Ungroup(Unpad(Padded(FromUrlSafe(t), k)))
  {
    DropCommutes(s, k);
    AtobDrops(Padded(FromUrlSafe(s), k), Padded(FromUrlSafe(t), k));
  }

  lemma AtobDrops(s: string, t: string)
    requires DropWhite(s) == t
    ensures Atob(s) == Ungroup(Unpad(t))
  {
  }

  lemma {:induction false} DropsOnce(s: string)
    ensures DropWhite(DropWhite(s)) == DropWhite(s)
  {
    if s != "" {
      DropsOnce(s[1..]);
    }
  }

  lemma SafeSymbolsDecode(t: string, n: nat)
    requires AllSafe(t) && |t| <= n
    ensures Ungroup(Unpad(Padded(FromUrlSafe(t), Missing(n)))) ==
            if (n - |t|) % 4 == 0 || n % 4 == 0 then Join(ValuesOf(t)) else None
  {
    var vs := ValuesOf(t);
    ValuesRoundTrip(t);
    SymbolsRoundTrip(vs);
    UnpadSymbols(Symbols(vs), Missing(n));
    FillsGroup(|t|, n);
  }

  lemma FillsGroup(t: nat, n: nat)
    requires t <= n
    ensures (t + Missing(n)) % 4 == 0 <==> (n - t) % 4 == 0
    ensures Missing(n) == 3 && (t + Missing(n)) % 4 == 0 ==> t % 4 == 1
    ensures Missing(n) == 0 <==> n % 4 == 0
  {
  }

  /** The bits that decoding drops from the last symbol. */
  function Leftover(vs: seq<Sextet>): nat {
    if |vs| % 4 == 2 then vs[|vs| - 1] % 16 else if |vs| % 4 == 3 then vs[|vs| - 1] % 4 else 0
  }

  /** Encoding what was decoded gives the text back exactly when the bits dropped were zero. */
  lemma CanonicalTheorem(s: string)
    requires AllSafe(s) && |s| % 4 != 1
    ensures Decoded(s).Some?
    ensures Encoded(Decoded(s).value) == s <==> Leftover(ValuesOf(s)) == 0
  {
    var vs := ValuesOf(s);
    ValuesRoundTrip(s);
    SymbolsDecode(vs);
    JoinSplits(vs);
    EncodedForm(Decoded(s).value);
    SymbolsDiffer(vs, Split(Decoded(s).value));
  }

  lemma SymbolsDiffer(vs: seq<Sextet>, ws: seq<Sextet>)
    ensures ToUrlSafe(Symbols(vs)) == ToUrlSafe(Symbols(ws)) <==> vs == ws
  {
    SymbolsRoundTrip(vs);
    SymbolsRoundTrip(ws);
    BackToStandard(Symbols(vs));
    BackToStandard(Symbols(ws));
  }

  lemma JoinSplits(vs: seq<Sextet>)
    requires |vs| % 4 != 1
    ensures Join(vs).Some?
    ensures Split(Join(vs).value) == vs <==> Leftover(vs) == 0
  {
    var bytes := Join(vs).value;
    SplitLength(bytes, |vs|);
    forall k | 0 <= k < |vs|
      ensures Split(bytes)[k] == vs[k] - (if k == |vs| - 1 then Leftover(vs) else 0)
    {
      ValueSurvives(vs, bytes, k / 4, k % 4, k, |vs|);
      assert Split(bytes)[k] == ValueAt(bytes, k);
    }
    SameUpToLast(Split(bytes), vs, Leftover(vs));
  }

  lemma SplitLength(bytes: seq<Byte>, n: nat)
    requires n % 4 != 1 && |bytes| == 3 * n / 4
    ensures |Split(bytes)| == n
  {
  }

  lemma SameUpToLast(us: seq<Sextet>, vs: seq<Sextet>, d: nat)
    requires |us| == |vs| && (vs == [] ==> d == 0)
    requires forall k | 0 <= k < |vs| :: us[k] == vs[k] - (if k == |vs| - 1 then d else 0)
    ensures us == vs <==> d == 0
  {
    assert vs != [] ==> us[|vs| - 1] == vs[|vs| - 1] - d;
  }

  /** Three bytes hold all bits of four values. */
  lemma BytesHold(v: Sextet, w: Sextet)
    ensures ByteIn(v, w, 0) / 4 == v && ByteIn(v, w, 0) % 4 == w / 16
    ensures ByteIn(v, w, 1) / 16 == v % 16 && ByteIn(v, w, 1) % 16 == w / 4
    ensures ByteIn(v, w, 2) / 64 == v % 4 && ByteIn(v, w, 2) % 64 == w
  {
    Digits(v, w / 16, 4);
    Digits(v % 16, w / 4, 16);
    Digits(v % 4, w, 64);
  }

  /** The r-th byte of group q. */
  lemma JoinedByte(vs: seq<Sextet>, bytes: seq<Byte>, q: nat, r: nat)
    requires Join(vs) == Some(bytes) && r < 3
    ensures ByteOrZero(bytes, 3 * q + r) ==
            if 4 * q + r + 1 < |vs| then ByteIn(vs[4 * q + r], vs[4 * q + r + 1], r) else 0
  {
    assert (3 * q + r) / 3 == q && (3 * q + r) % 3 == r;
  }

  /** The r-th value of four, from the high and the low bits of it. */
  function FromHalves(high: Byte, low: Byte, r: nat): Sextet
    requires r < 4
  {
    match r
    case 0 => ValueIn(low, 0, 0, 0)
    case 1 => ValueIn(high, low, 0, 1)
    case 2 => ValueIn(0, high, low, 2)
    case _ => ValueIn(0, 0, high, 3)
  }

  lemma ValueOfGroup(bytes: seq<Byte>, q: nat, r: nat, high: Byte, low: Byte)
    requires r < 4
    requires r < 3 ==> ByteOrZero(bytes, 3 * q + r) == low
    requires r > 0 ==> ByteOrZero(bytes, 3 * q + r - 1) == high
    ensures ValueAt(bytes, 4 * q + r) == FromHalves(high, low, r)
  {
    assert (4 * q + r) / 4 == q && (4 * q + r) % 4 == r;
  }

  lemma ValueSurvives(vs: seq<Sextet>, bytes: seq<Byte>, q: nat, r: nat, k: nat, n: nat)
    requires Join(vs) == Some(bytes)
    requires r < 4 && k == 4 * q + r && n == |vs| && k < n
    ensures ValueAt(bytes, k) == vs[k] - (if k == n - 1 then Leftover(vs) else 0)
  {
    var v, here := vs[k], r < 3 && k + 1 < n;
    var u, w := if r > 0 then vs[k - 1] else 0, if here then vs[k + 1] else 0;
    LastOfGroup(n, q, r);
    Neighbours(vs, bytes, q, r, u, v, w, here);
    ValueFrom(bytes, q, r, u, v, w, here);
    if k == n - 1 {
      LastLeft(vs, v, r);
    }
  }

  lemma ValueFrom(bytes: seq<Byte>, q: nat, r: nat, u: Sextet, v: Sextet, w: Sextet, here: bool)
    requires r < 4 && (r == 0 ==> here)
    requires r < 3 ==> ByteOrZero(bytes, 3 * q + r) == if here then ByteIn(v, w, r) else 0
    requires r > 0 ==> ByteOrZero(bytes, 3 * q + r - 1) == ByteIn(u, v, r - 1)
    ensures ValueAt(bytes, 4 * q + r) == v - if here then 0 else if r == 1 then v % 16 else if r == 2 then v % 4 else 0
  {
    var high := if r == 0 then 0 else ByteIn(u, v, r - 1);
    var low := if r < 3 && here then ByteIn(v, w, r) else 0;
    ValueOfGroup(bytes, q, r, high, low);
    Halves(u, v, w, r, here);
  }

  lemma LastLeft(vs: seq<Sextet>, v: Sextet, r: nat)
    requires vs != [] && v == vs[|vs| - 1] && r < 4 && |vs| % 4 == (r + 1) % 4
    ensures Leftover(vs) == if r == 1 then v % 16 else if r == 2 then v % 4 else 0
  {
  }

  lemma Neighbours(vs: seq<Sextet>, bytes: seq<Byte>, q: nat, r: nat, u: Sextet, v: Sextet, w: Sextet, here: bool)
    requires Join(vs) == Some(bytes) && r < 4 && 4 * q + r < |vs|
    requires here == (r < 3 && 4 * q + r + 1 < |vs|)
    requires v == vs[4 * q + r] && (r > 0 ==> u == vs[4 * q + r - 1]) && (here ==> w == vs[4 * q + r + 1])
    ensures r < 3 ==> ByteOrZero(bytes, 3 * q + r) == if here then ByteIn(v, w, r) else 0
    ensures r > 0 ==> ByteOrZero(bytes, 3 * q + r - 1) == ByteIn(u, v, r - 1)
  {
    if r < 3 {
      JoinedByte(vs, bytes, q, r);
    }
    if r > 0 {
      JoinedByte(vs, bytes, q, r - 1);
    }
  }

  /** Only the last value can miss the byte that holds its low bits. */
  lemma LastOfGroup(n: nat, q: nat, r: nat)
    requires r < 4 && 4 * q + r < n && n % 4 != 1
    ensures r == 0 ==> 4 * q + r + 1 < n
    ensures 4 * q + r == n - 1 ==> n % 4 == (r + 1) % 4
  {
  }

  /** A value in two bytes, the second of which may be missing. */
  lemma Halves(u: Sextet, v: Sextet, w: Sextet, r: nat, here: bool)
    requires r < 4 && (r == 0 ==> here)
    ensures var high := if r == 0 then 0 else ByteIn(u, v, r - 1);
            var low := if r < 3 && here then ByteIn(v, w, r) else 0;
            FromHalves(high, low, r) == v - if here then 0 else if r == 1 then v % 16 else if r == 2 then v % 4 else 0
  {
    BytesHold(u, v);
    BytesHold(v, w);
  }
}
