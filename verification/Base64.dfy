/** Base64 as section 4 of RFC 4648 defines it, printed and parsed; a text is the sequence of its UTF-8 bytes. */
module Base64 {
  import opened Seqs

  type Byte = x: nat | x < 256

  const UPPER: string := "ABCDEFGHIJKLMNOPQRSTUVWXYZ"
  const LOWER: string := "abcdefghijklmnopqrstuvwxyz"
  const CHARS: string := UPPER + LOWER + "0123456789" + "+/"
  const PAD: Byte := 61
  const LF: Byte := 10
  const CR: Byte := 13

  // ------------------------------------------------------------------- bits

  /** Bitwise or. */
  function Or(a: nat, b: nat): nat {
    if a == 0 && b == 0 then 0
    else (if a % 2 == 1 || b % 2 == 1 then 1 else 0) + 2 * Or(a / 2, b / 2)
  }

  function Pow2(k: nat): nat {
    if k == 0 then 1 else 2 * Pow2(k - 1)
  }

  lemma {:induction false} OrZero(a: nat)
    ensures Or(a, 0) == a && Or(0, a) == a
  {
    if a > 0 {
      OrZero(a / 2);
    }
  }

  /** Or adds numbers that have no bit in common. */
  lemma {:induction false} OrAdds(a: nat, b: nat, k: nat)
    requires b < Pow2(k)
    ensures Or(a * Pow2(k), b) == a * Pow2(k) + b
  {
    if k == 0 {
      OrZero(a);
    } else {
      var c := a * Pow2(k - 1);
      assert a * Pow2(k) == 2 * c;
      OrAdds(a, b / 2, k - 1);
    }
  }

  /** Three bytes side by side. */
  function Join3(b0: nat, b1: nat, b2: nat): nat {
    Or(Or(b0 * 65536, b1 * 256), b2)
  }

  /** Four six-bit values side by side; greater values overlap. */
  function Join4(s0: nat, s1: nat, s2: nat, s3: nat): nat {
    Or(Or(Or(s0 * 262144, s1 * 4096), s2 * 64), s3)
  }

  lemma Join3Is(b0: Byte, b1: Byte, b2: Byte)
    ensures Join3(b0, b1, b2) == b0 * 65536 + b1 * 256 + b2
  {
    assert Pow2(8) == 256;
    assert Pow2(16) == 65536;
    OrAdds(b0, b1 * 256, 16);
    OrAdds(b0 * 256 + b1, b2, 8);
  }

  lemma Join4Is(s0: nat, s1: nat, s2: nat, s3: nat)
    requires s0 < 64 && s1 < 64 && s2 < 64 && s3 < 64
    ensures Join4(s0, s1, s2, s3) == s0 * 262144 + s1 * 4096 + s2 * 64 + s3
  {
    assert Pow2(6) == 64;
    assert Pow2(12) == 4096;
    assert Pow2(18) == 262144;
    OrAdds(s0, s1 * 4096, 18);
    OrAdds(s0 * 64 + s1, s2 * 64, 12);
    OrAdds(s0 * 4096 + s1 * 64 + s2, s3, 6);
  }

  // ---------------------------------------------------------------- alphabet

  /** The symbol of a six-bit value: letters, digits, plus and slash. */
  function Symbol(v: nat): Byte
    requires v < 64
  {
    if v < 26 then v + 65 else if v < 52 then v + 71 else if v < 62 then v - 4 else if v == 62 then 43 else 47
  }

  lemma CharsAreSymbols(v: nat)
    requires v < 64
    ensures CHARS[v] as nat == Symbol(v)
  {
    UpperAre(v);
    LowerAre(v - 26);
    assert v < 26 ==> CHARS[v] == UPPER[v];
    assert 26 <= v < 52 ==> CHARS[v] == LOWER[v - 26];
  }

  lemma UpperAre(v: int)
    ensures |UPPER| == 26 && (0 <= v < 26 ==> UPPER[v] as int == v + 65)
  {
  }

  lemma LowerAre(v: int)
    ensures |LOWER| == 26 && (0 <= v < 26 ==> LOWER[v] as int == v + 97)
  {
  }

  /** What the decode table holds: the value of a symbol, 255 for other ASCII bytes. */
  function TableEntry(c: nat): nat
    requires c < 128
  {
    if 65 <= c <= 90 then c - 65
    else if 97 <= c <= 122 then c - 71
    else if 48 <= c <= 57 then c + 4
    else if c == 43 then 62
    else if c == 47 then 63
    else 255
  }

  /** Bytes beyond the table read as zero. */
  function ValueOf(c: Byte): nat {
    if c < 128 then TableEntry(c) else 0
  }

  predicate InAlphabet(c: Byte) {
    c < 128 && TableEntry(c) < 64
  }

  /** Table and alphabet are inverse. */
  lemma SymbolRoundTrip(v: nat)
    requires v < 64
    ensures InAlphabet(Symbol(v)) && ValueOf(Symbol(v)) == v
  {
  }

  lemma ValueRoundTrip(c: Byte)
    requires InAlphabet(c)
    ensures ValueOf(c) < 64 && Symbol(ValueOf(c)) == c
  {
  }

  predicate IsDecodeTable(t: array<nat>)
    reads t
  {
    t.Length == 128 && forall c :: 0 <= c < 128 ==> t[c] == TableEntry(c)
  }

  method DecodeTable() returns (t: array<nat>)
    ensures fresh(t) && IsDecodeTable(t)
  {
    t := new nat[128](_ => 255);
    var i := 0;
    while i < 26
      invariant 0 <= i <= 26
      invariant forall c :: 0 <= c < 128 ==> t[c] == if 65 <= c < 65 + i || 97 <= c < 97 + i then TableEntry(c) else 255
    {
      t[65 + i] := i;
      t[97 + i] := i + 26;
      i := i + 1;
    }
    i := 0;
    while i < 10
      invariant 0 <= i <= 10
      invariant forall c :: 0 <= c < 128 ==>
                  t[c] == if 65 <= c < 91 || 97 <= c < 123 || 48 <= c < 48 + i then TableEntry(c) else 255
    {
      t[48 + i] := i + 52;
      i := i + 1;
    }
    t[43] := 62;
    t[47] := 63;
  }

  // ------------------------------------------------------------------ chunks

  /** Byte `k` of a chunk, zero if there is none. */
  function Part(c: seq<Byte>, k: nat): nat {
    if k < |c| then c[k] else 0
  }

  /** Up to three bytes as a 24-bit number. */
  function Triple(c: seq<Byte>): nat {
    Join3(Part(c, 0), Part(c, 1), Part(c, 2))
  }

  /** Four symbols, padded where there are no bytes. */
  function EncodeChunk(c: seq<Byte>): seq<Byte>
    requires 1 <= |c| <= 3
  {
    var t := Triple(c);
    [Symbol(t / 262144 % 64), Symbol(t / 4096 % 64),
     if |c| > 1 then Symbol(t / 64 % 64) else PAD,
     if |c| > 2 then Symbol(t % 64) else PAD]
  }

  /** The value of symbol `k` of a chunk, zero if there is none. */
  function ValuePart(c: seq<Byte>, k: nat): nat {
    if k < |c| then ValueOf(c[k]) else 0
  }

  /** Up to four symbols; a lone symbol holds no byte. */
  function DecodeChunk(c: seq<Byte>): seq<Byte>
    requires 1 <= |c| <= 4
  {
    if |c| < 2 then [] else
      var t := Join4(ValuePart(c, 0), ValuePart(c, 1), ValuePart(c, 2), ValuePart(c, 3));
      [t / 65536 % 256] + (if |c| > 2 then [t / 256 % 256] else []) + if |c| > 3 then [t % 256] else []
  }

  /** The symbols of a chunk without the padding. */
  function ChunkSymbols(c: seq<Byte>): seq<Byte>
    requires 1 <= |c| <= 3
  {
    EncodeChunk(c)[..|c| + 1]
  }

  /** The four six-bit digits of a 24-bit number. */
  function Digit6(t: nat, k: nat): (d: nat)
    ensures d < 64
  {
    if k == 0 then t / 262144 % 64 else if k == 1 then t / 4096 % 64 else if k == 2 then t / 64 % 64 else t % 64
  }

  lemma SymbolsOfChunk(c: seq<Byte>, k: nat)
    requires 1 <= |c| <= 3 && k < |c| + 1
    ensures InAlphabet(EncodeChunk(c)[k])
    ensures ValueOf(EncodeChunk(c)[k]) == Digit6(Triple(c), k)
  {
    SymbolRoundTrip(Digit6(Triple(c), k));
  }

  lemma DigitsMakeUp(t: nat)
    requires t < 64 * 262144
    ensures Digit6(t, 0) * 262144 + Digit6(t, 1) * 4096 + Digit6(t, 2) * 64 + Digit6(t, 3) == t
  {
    assert t / 4096 == t / 262144 * 64 + t / 4096 % 64;
    assert t / 64 == t / 4096 * 64 + t / 64 % 64;
  }

  lemma BytesMakeUp(b0: Byte, b1: Byte, b2: Byte)
    ensures var t := b0 * 65536 + b1 * 256 + b2; t / 65536 % 256 == b0 && t / 256 % 256 == b1 && t % 256 == b2
  {
    var t := b0 * 65536 + b1 * 256 + b2;
    assert t / 256 == b0 * 256 + b1;
    assert t / 65536 == b0;
  }

  /** The digits that are not written are zero. */
  lemma UnwrittenDigits(c: seq<Byte>, k: nat)
    requires 1 <= |c| < k <= 3
    ensures Digit6(Triple(c), k) == 0
  {
    Join3Is(Part(c, 0), Part(c, 1), Part(c, 2));
    if k == 3 {
      MultipleOf64(1024 * Part(c, 0) + 4 * Part(c, 1));
    } else {
      MultipleOf64(1024 * Part(c, 0));
      MultipleOf64(16 * Part(c, 0));
    }
  }

  lemma MultipleOf64(m: nat)
    ensures 64 * m % 64 == 0 && 64 * m / 64 == m
  {
  }

  lemma SymbolsHoldTriple(c: seq<Byte>)
    requires 1 <= |c| <= 3
    ensures var s := ChunkSymbols(c);
            Join4(ValuePart(s, 0), ValuePart(s, 1), ValuePart(s, 2), ValuePart(s, 3)) == Triple(c)
  {
    var t, s := Triple(c), ChunkSymbols(c);
    forall k: nat | k < 4
      ensures ValuePart(s, k) == Digit6(t, k)
    {
      if k <= |c| {
        SymbolsOfChunk(c, k);
      } else {
        UnwrittenDigits(c, k);
      }
    }
    Join3Is(Part(c, 0), Part(c, 1), Part(c, 2));
    DigitsMakeUp(t);
    Join4Is(Digit6(t, 0), Digit6(t, 1), Digit6(t, 2), Digit6(t, 3));
  }

  lemma ChunkRoundTrip(c: seq<Byte>)
    requires 1 <= |c| <= 3
    ensures DecodeChunk(ChunkSymbols(c)) == c
  {
    SymbolsHoldTriple(c);
    Join3Is(Part(c, 0), Part(c, 1), Part(c, 2));
    BytesMakeUp(Part(c, 0), Part(c, 1), Part(c, 2));
  }

  // ----------------------------------------------------------- whole messages

  lemma Multiples(q: nat)
    ensures 3 * q % 3 == 0 && 4 * q % 4 == 0
  {
  }

  /** Where the last chunk of a non-empty sequence starts, for chunks of three or four. */
  function LastStart(len: nat, size: nat): (k: nat)
    requires len > 0 && (size == 3 || size == 4)
    ensures k < len <= k + size && (if size == 3 then k % 3 == 0 else k % 4 == 0)
  {
    Multiples((len - 1) / 3);
    Multiples((len - 1) / 4);
    if size == 3 then 3 * ((len - 1) / 3) else 4 * ((len - 1) / 4)
  }

  function Encoded(data: seq<Byte>): seq<Byte> {
    if data == [] then [] else
      var k := LastStart(|data|, 3);
      Encoded(data[..k]) + EncodeChunk(data[k..])
  }

  function DecodedSymbols(symbols: seq<Byte>): seq<Byte> {
    if symbols == [] then [] else
      var k := LastStart(|symbols|, 4);
      DecodedSymbols(symbols[..k]) + DecodeChunk(symbols[k..])
  }

  predicate Significant(c: Byte) {
    c != PAD && c != LF && c != CR
  }

  function Symbols(text: seq<Byte>): seq<Byte> {
    Filter(text, Significant)
  }

  function Decoded(text: seq<Byte>): seq<Byte> {
    DecodedSymbols(Symbols(text))
  }

  function Min(a: nat, b: nat): nat {
    if a < b then a else b
  }

  method EncodeOne(chunk: seq<Byte>) returns (out: seq<Byte>)
    requires 1 <= |chunk| <= 3
    ensures out == EncodeChunk(chunk)
  {
    var triple := Join3(Part(chunk, 0), Part(chunk, 1), Part(chunk, 2));
    CharsAreSymbols(triple / 262144 % 64);
    CharsAreSymbols(triple / 4096 % 64);
    CharsAreSymbols(triple / 64 % 64);
    CharsAreSymbols(triple % 64);
    out := [CHARS[triple / 262144 % 64] as nat, CHARS[triple / 4096 % 64] as nat];
    out := out + [if |chunk| > 1 then CHARS[triple / 64 % 64] as nat else PAD];
    out := out + [if |chunk| > 2 then CHARS[triple % 64] as nat else PAD];
  }

  lemma NextChunk(i: nat, n: nat)
    requires i < n && (i % 3 == 0 || i == n)
    ensures i % 3 == 0 && i < Min(i + 3, n) <= i + 3
    ensures Min(i + 3, n) % 3 == 0 || Min(i + 3, n) == n
  {
  }

  method Encode(data: seq<Byte>) returns (out: seq<Byte>)
    ensures out == Encoded(data)
  {
    out := [];
    var i := 0;
    while i < |data|
      invariant 0 <= i <= |data| && (i % 3 == 0 || i == |data|)
      invariant out == Encoded(data[..i])
    {
      var next := Min(i + 3, |data|);
      NextChunk(i, |data|);
      EncodedStep(data, i, next);
      var symbols := EncodeOne(data[i..next]);
      out := out + symbols;
      i := next;
    }
    assert data[..i] == data;
  }

  lemma LastStartIs(n: nat, q: nat)
    ensures 3 * q < n <= 3 * q + 3 ==> LastStart(n, 3) == 3 * q
    ensures 4 * q < n <= 4 * q + 4 ==> LastStart(n, 4) == 4 * q
  {
    assert 3 * q < n <= 3 * q + 3 ==> (n - 1) / 3 == q;
    assert 4 * q < n <= 4 * q + 4 ==> (n - 1) / 4 == q;
  }

  lemma EncodedStep(data: seq<Byte>, i: nat, next: nat)
    requires i < next <= |data| && i % 3 == 0 && next <= i + 3
    ensures Encoded(data[..next]) == Encoded(data[..i]) + EncodeChunk(data[i..next])
  {
    LastStartIs(next, i / 3);
    assert data[..next][..i] == data[..i] && data[..next][i..] == data[i..next];
  }

  method Lookup(table: array<nat>, c: Byte) returns (v: nat)
    requires IsDecodeTable(table)
    ensures v == ValueOf(c)
  {
    v := if c < 128 then table[c] else 0;
  }

  method DecodeOne(table: array<nat>, chunk: seq<Byte>) returns (out: seq<Byte>)
    requires IsDecodeTable(table)
    requires 2 <= |chunk| <= 4
    ensures out == DecodeChunk(chunk)
  {
    var b0 := Lookup(table, chunk[0]);
    var b1 := Lookup(table, chunk[1]);
    var b2, b3 := 0, 0;
    if |chunk| > 2 {
      b2 := Lookup(table, chunk[2]);
    }
    if |chunk| > 3 {
      b3 := Lookup(table, chunk[3]);
    }
    var triple := Join4(b0, b1, b2, b3);
    out := [triple / 65536 % 256];
    if |chunk| > 2 {
      out := out + [triple / 256 % 256];
    }
    if |chunk| > 3 {
      out := out + [triple % 256];
    }
  }

  method Decode(text: seq<Byte>) returns (out: seq<Byte>)
    ensures out == Decoded(text)
  {
    var table := DecodeTable();
    var bytes := Filter(text, Significant);
    out := [];
    var i := 0;
    ghost var q := 0;
    while i < |bytes|
      invariant IsDecodeTable(table)
      invariant i == Min(4 * q, |bytes|)
      invariant out == DecodedSymbols(bytes[..i])
    {
      var next := Min(i + 4, |bytes|);
      var chunk := bytes[i..next];
      DecodedStep(bytes, i, next, q);
      if |chunk| < 2 {
        assert bytes[..next] == bytes;
        return;
      }
      var more := DecodeOne(table, chunk);
      out := out + more;
      i, q := next, q + 1;
    }
    assert bytes[..i] == bytes;
  }

  lemma DecodedStep(symbols: seq<Byte>, i: nat, next: nat, q: nat)
    requires i < next <= |symbols| && i == 4 * q && next <= i + 4
    ensures DecodedSymbols(symbols[..next]) == DecodedSymbols(symbols[..i]) + DecodeChunk(symbols[i..next])
  {
    LastStartIs(next, q);
    assert symbols[..next][..i] == symbols[..i] && symbols[..next][i..] == symbols[i..next];
  }

  // --------------------------------------------------------------- round trip

  lemma {:induction false} AlphabetIsSignificant(s: seq<Byte>)
    requires forall k :: 0 <= k < |s| ==> InAlphabet(s[k])
    ensures Filter(s, Significant) == s
  {
    if s != [] {
      AlphabetIsSignificant(s[..|s| - 1]);
      assert s == s[..|s| - 1] + [s[|s| - 1]];
      assert InAlphabet(s[|s| - 1]);
    }
  }

  lemma {:induction false} PaddingIsDropped(s: seq<Byte>)
    requires forall k :: 0 <= k < |s| ==> s[k] == PAD
    ensures Filter(s, Significant) == []
  {
    if s != [] {
      PaddingIsDropped(s[..|s| - 1]);
    }
  }

  lemma SymbolsOfEncodedChunk(c: seq<Byte>)
    requires 1 <= |c| <= 3
    ensures Symbols(EncodeChunk(c)) == ChunkSymbols(c)
  {
    var s, n := EncodeChunk(c), |c| + 1;
    forall k | 0 <= k < n
      ensures InAlphabet(s[k])
    {
      SymbolsOfChunk(c, k);
    }
    assert s == s[..n] + s[n..];
    SymbolsOfParts(s[..n], s[n..]);
  }

  lemma EncodedSymbolsSplit(data: seq<Byte>)
    requires data != []
    ensures var k := LastStart(|data|, 3);
            Symbols(Encoded(data)) == Symbols(Encoded(data[..k])) + ChunkSymbols(data[k..])
  {
    var k := LastStart(|data|, 3);
    SymbolsOfEncodedChunk(data[k..]);
    FilterAppend(Encoded(data[..k]), EncodeChunk(data[k..]), Significant);
  }

  /** Full chunks have four symbols each. */
  lemma {:induction false} SymbolsOfFullChunks(data: seq<Byte>)
    requires |data| % 3 == 0
    ensures |Symbols(Encoded(data))| == 4 * (|data| / 3)
  {
    if data != [] {
      EncodedSymbolsSplit(data);
      SymbolsOfFullChunks(data[..LastStart(|data|, 3)]);
    }
  }

  lemma {:induction false} SymbolsRoundTrip(data: seq<Byte>)
    ensures DecodedSymbols(Symbols(Encoded(data))) == data
  {
    if data != [] {
      var k := LastStart(|data|, 3);
      var s, before, last := Symbols(Encoded(data)), Symbols(Encoded(data[..k])), ChunkSymbols(data[k..]);
      EncodedSymbolsSplit(data);
      SymbolsOfFullChunks(data[..k]);
      SymbolsRoundTrip(data[..k]);
      ChunkRoundTrip(data[k..]);
      DecodedSplit(s, before, last, k / 3);
    }
  }

  lemma DecodedSplit(s: seq<Byte>, before: seq<Byte>, last: seq<Byte>, q: nat)
    requires s == before + last && |before| == 4 * q && 1 <= |last| <= 4
    ensures DecodedSymbols(s) == DecodedSymbols(before) + DecodeChunk(last)
  {
    LastStartIs(|s|, q);
    assert s[..|before|] == before && s[|before|..] == last;
  }

  /** Decoding gives back what was encoded. */
  lemma RoundTrip(data: seq<Byte>)
    ensures Decoded(Encoded(data)) == data
  {
    SymbolsRoundTrip(data);
  }

  predicate NotBreak(c: Byte) {
    c != LF && c != CR
  }

  /** The text without its line breaks. */
  function Unbroken(text: seq<Byte>): seq<Byte> {
    Filter(text, NotBreak)
  }

  lemma {:induction false} BreaksAreIgnored(text: seq<Byte>)
    ensures Symbols(Unbroken(text)) == Symbols(text)
  {
    if text != [] {
      var before, c := text[..|text| - 1], text[|text| - 1];
      BreaksAreIgnored(before);
      if NotBreak(c) {
        assert Unbroken(text)[..|Unbroken(before)|] == Unbroken(before);
      }
    }
  }

  /** However carriage returns and line feeds are put into an encoded text, it still decodes to the same bytes. */
  lemma RoundTripWithLineBreaks(data: seq<Byte>, text: seq<Byte>)
    requires Unbroken(text) == Encoded(data)
    ensures Decoded(text) == data
  {
    BreaksAreIgnored(text);
    RoundTrip(data);
  }

  // ------------------------------------------------------------------- format

  /** How many of the last symbols are padding. */
  function Padding(len: nat): nat {
    if len % 3 == 1 then 2 else if len % 3 == 2 then 1 else 0
  }

  /** Four symbols per three bytes or part of them. */
  lemma ChunksNeeded(n: nat, k: nat)
    requires k < n <= k + 3 && k % 3 == 0
    ensures (n + 2) / 3 == (k + 2) / 3 + 1
  {
  }

  lemma {:induction false} EncodedLength(data: seq<Byte>)
    ensures |Encoded(data)| == 4 * ((|data| + 2) / 3)
  {
    if data != [] {
      var n, k: nat := |data|, LastStart(|data|, 3);
      EncodedLength(data[..k]);
      assert |Encoded(data)| == |Encoded(data[..k])| + 4;
      ChunksNeeded(n, k);
    }
  }

  /** All symbols are from the alphabet but for the padding at the end. */
  lemma {:induction false} EncodedFormat(data: seq<Byte>, j: nat)
    requires j < |Encoded(data)|
    ensures if j < |Encoded(data)| - Padding(|data|) then InAlphabet(Encoded(data)[j]) else Encoded(data)[j] == PAD
  {
    var k := LastStart(|data|, 3);
    var before, c := Encoded(data[..k]), data[k..];
    assert Padding(k) == 0 && Padding(|data|) == 3 - |c|;
    if j < |before| {
      EncodedFormat(data[..k], j);
    } else if j - |before| < |c| + 1 {
      SymbolsOfChunk(c, j - |before|);
    }
  }

  // ----------------------------------------------------------- canonical texts

  ghost predicate AllInAlphabet(text: seq<Byte>) {
    forall k :: 0 <= k < |text| ==> InAlphabet(text[k])
  }

  /** How many symbols of the last four are not padding. */
  function Written(c: seq<Byte>): nat
    requires |c| == 4
  {
    if c[3] != PAD then 4 else if c[2] != PAD then 3 else 2
  }

  /** Four symbols of which up to two are padding, and the bits that no byte uses are zero. */
  ghost predicate LastQuad(c: seq<Byte>) {
    && |c| == 4
    && AllInAlphabet(c[..Written(c)])
    && (Written(c) == 3 ==> ValueOf(c[2]) % 4 == 0)
    && (Written(c) == 2 ==> ValueOf(c[1]) % 16 == 0)
  }

  /** What section 4 of RFC 4648 allows as an encoding. */
  ghost predicate Canonical(text: seq<Byte>) {
    text == [] ||
    (|text| % 4 == 0 && AllInAlphabet(text[..|text| - 4]) && LastQuad(text[|text| - 4..]))
  }

  lemma BytesOf(t: nat)
    requires t < 64 * 262144
    ensures t / 65536 < 256 && t / 65536 % 256 * 65536 + t / 256 % 256 * 256 + t % 256 == t
  {
    assert t / 256 == t / 65536 * 256 + t / 256 % 256;
  }

  lemma DigitsOf(v0: nat, v1: nat, v2: nat, v3: nat)
    requires v0 < 64 && v1 < 64 && v2 < 64 && v3 < 64
    ensures var t := v0 * 262144 + v1 * 4096 + v2 * 64 + v3;
            t < 64 * 262144 && Digit6(t, 0) == v0 && Digit6(t, 1) == v1 && Digit6(t, 2) == v2 && Digit6(t, 3) == v3
  {
    var t := v0 * 262144 + v1 * 4096 + v2 * 64 + v3;
    assert t / 64 == v0 * 4096 + v1 * 64 + v2;
    assert t / 4096 == v0 * 64 + v1;
    assert t / 262144 == v0;
  }

  /** The number that four symbols hold. */
  function Held(s: seq<Byte>): nat {
    Join4(ValuePart(s, 0), ValuePart(s, 1), ValuePart(s, 2), ValuePart(s, 3))
  }

  lemma ValueInRange(s: seq<Byte>, k: nat)
    requires AllInAlphabet(s)
    ensures ValuePart(s, k) < 64
  {
    if k < |s| {
      assert InAlphabet(s[k]);
    }
  }

  lemma Join4Digits(v0: nat, v1: nat, v2: nat, v3: nat, k: nat)
    requires v0 < 64 && v1 < 64 && v2 < 64 && v3 < 64 && k < 4
    ensures Join4(v0, v1, v2, v3) < 64 * 262144
    ensures Digit6(Join4(v0, v1, v2, v3), k) == if k == 0 then v0 else if k == 1 then v1 else if k == 2 then v2 else v3
  {
    Join4Is(v0, v1, v2, v3);
    DigitsOf(v0, v1, v2, v3);
  }

  lemma HeldDigits(s: seq<Byte>, k: nat)
    requires |s| <= 4 && AllInAlphabet(s) && k < 4
    ensures Held(s) < 64 * 262144 && Digit6(Held(s), k) == ValuePart(s, k)
  {
    var v0, v1, v2, v3 := ValuePart(s, 0), ValuePart(s, 1), ValuePart(s, 2), ValuePart(s, 3);
    ValueInRange(s, 0);
    ValueInRange(s, 1);
    ValueInRange(s, 2);
    ValueInRange(s, 3);
    Join4Digits(v0, v1, v2, v3, k);
  }

  /** Decoding the symbols gives bytes that make up the same number, because the unused bits are zero. */
  lemma DecodedHolds(s: seq<Byte>)
    requires 2 <= |s| <= 4 && AllInAlphabet(s)
    requires (|s| == 3 ==> ValueOf(s[2]) % 4 == 0) && (|s| == 2 ==> ValueOf(s[1]) % 16 == 0)
    ensures |DecodeChunk(s)| == |s| - 1 && Triple(DecodeChunk(s)) == Held(s)
  {
    var t, d := Held(s), DecodeChunk(s);
    HeldDigits(s, 0);
    BytesOf(t);
    UnusedBits(s);
    Join3Is(Part(d, 0), Part(d, 1), Part(d, 2));
  }

  lemma UnusedBits(s: seq<Byte>)
    requires 2 <= |s| <= 4 && AllInAlphabet(s)
    requires (|s| == 3 ==> ValueOf(s[2]) % 4 == 0) && (|s| == 2 ==> ValueOf(s[1]) % 16 == 0)
    ensures |s| < 4 ==> Held(s) % 256 == 0
    ensures |s| < 3 ==> Held(s) / 256 % 256 == 0
  {
    ValueInRange(s, 0);
    ValueInRange(s, 1);
    ValueInRange(s, 2);
    ValueInRange(s, 3);
    Join4Is(ValuePart(s, 0), ValuePart(s, 1), ValuePart(s, 2), ValuePart(s, 3));
    if |s| == 3 {
      ThreeUnused(ValuePart(s, 0), ValuePart(s, 1), ValuePart(s, 2));
    } else if |s| == 2 {
      TwoUnused(ValuePart(s, 0), ValuePart(s, 1));
    }
  }

  lemma ThreeUnused(v0: nat, v1: nat, v2: nat)
    requires v2 % 4 == 0
    ensures (v0 * 262144 + v1 * 4096 + v2 * 64) % 256 == 0
  {
    var m := v2 / 4;
    assert v2 == 4 * m;
    MultipleOf256(v0 * 1024 + v1 * 16 + m);
  }

  lemma TwoUnused(v0: nat, v1: nat)
    requires v1 % 16 == 0
    ensures var t := v0 * 262144 + v1 * 4096; t % 256 == 0 && t / 256 % 256 == 0
  {
    var m := v1 / 16;
    assert v1 == 16 * m;
    MultipleOf256(256 * (v0 * 4 + m));
    MultipleOf256(v0 * 4 + m);
  }

  lemma MultipleOf256(m: nat)
    ensures 256 * m % 256 == 0 && 256 * m / 256 == m
  {
  }

  lemma SymbolsOfParts(a: seq<Byte>, b: seq<Byte>)
    requires AllInAlphabet(a) && forall k :: 0 <= k < |b| ==> b[k] == PAD
    ensures Symbols(a + b) == a
  {
    AlphabetIsSignificant(a);
    PaddingIsDropped(b);
    FilterAppend(a, b, Significant);
  }

  lemma QuadSymbols(c: seq<Byte>)
    requires LastQuad(c)
    ensures Symbols(c) == c[..Written(c)]
  {
    var n := Written(c);
    assert c == c[..n] + c[n..];
    SymbolsOfParts(c[..n], c[n..]);
  }

  lemma QuadRoundTrip(c: seq<Byte>)
    requires LastQuad(c)
    ensures 1 <= |DecodeChunk(c[..Written(c)])| <= 3 && EncodeChunk(DecodeChunk(c[..Written(c)])) == c
  {
    var s := c[..Written(c)];
    var d := DecodeChunk(s);
    DecodedHolds(s);
    forall k | 0 <= k < |s|
      ensures EncodeChunk(d)[k] == c[k]
    {
      HeldDigits(s, k);
      assert InAlphabet(s[k]);
      ValueRoundTrip(s[k]);
      assert Digit6(Triple(d), k) == ValueOf(s[k]);
    }
  }

  lemma EncodedSplit(before: seq<Byte>, last: seq<Byte>, q: nat)
    requires |before| == 3 * q && 1 <= |last| <= 3
    ensures Encoded(before + last) == Encoded(before) + EncodeChunk(last)
  {
    var data := before + last;
    LastStartIs(|data|, q);
    assert data[..|before|] == before && data[|before|..] == last;
  }

  /** Text without padding, in full groups of four. */
  lemma {:induction false} FullRoundTrip(text: seq<Byte>, q: nat)
    requires |text| == 4 * q && AllInAlphabet(text)
    ensures |DecodedSymbols(text)| == 3 * q && Encoded(DecodedSymbols(text)) == text
    decreases q
  {
    if q > 0 {
      var before, last := text[..4 * (q - 1)], text[4 * (q - 1)..];
      assert text == before + last;
      FullRoundTrip(before, q - 1);
      assert last[..4] == last && last[3] != PAD by {
        assert InAlphabet(text[4 * q - 1]) && last[3] == text[4 * q - 1];
      }
      QuadRoundTrip(last);
      DecodedHolds(last);
      DecodedSplit(text, before, last, q - 1);
      EncodedSplit(DecodedSymbols(before), DecodeChunk(last), q - 1);
    }
  }

  lemma CanonicalRoundTrip(text: seq<Byte>)
    requires Canonical(text)
    ensures Encoded(Decoded(text)) == text
  {
    if text != [] {
      var q := |text| / 4 - 1;
      var before, last := text[..4 * q], text[4 * q..];
      assert text == before + last;
      FilterAppend(before, last, Significant);
      AlphabetIsSignificant(before);
      QuadSymbols(last);
      FullRoundTrip(before, q);
      QuadRoundTrip(last);
      DecodedSplit(Symbols(text), before, Symbols(last), q);
      EncodedSplit(DecodedSymbols(before), DecodeChunk(Symbols(last)), q);
    }
  }

  lemma ChunkPadding(c: seq<Byte>)
    requires 1 <= |c| <= 3
    ensures |c| < 3 ==> Digit6(Triple(c), |c|) % (if |c| == 2 then 4 else 16) == 0
  {
    Join3Is(Part(c, 0), Part(c, 1), Part(c, 2));
    LastDigits(Part(c, 0), Part(c, 1));
  }

  lemma ChunkIsLastQuad(c: seq<Byte>)
    requires 1 <= |c| <= 3
    ensures LastQuad(EncodeChunk(c)) && (|c| == 3 ==> AllInAlphabet(EncodeChunk(c)))
  {
    var s, t := EncodeChunk(c), Triple(c);
    forall k | 0 <= k < |c| + 1
      ensures InAlphabet(s[k]) && ValueOf(s[k]) == Digit6(t, k)
    {
      SymbolsOfChunk(c, k);
    }
    ChunkPadding(c);
    assert Written(s) == |c| + 1;
  }

  /** The last digit that is written of one or two bytes has zeros where there is no byte. */
  lemma Mod64Is(n: nat, a: nat, b: nat)
    requires n == 64 * a + b && b < 64
    ensures n % 64 == b
  {
  }

  lemma Low2Bits(m: nat)
    ensures 4 * m % 64 % 4 == 0
  {
    Mod64Is(4 * m, m / 16, 4 * (m % 16));
    assert 4 * (m % 16) % 4 == 0;
  }

  lemma Low4Bits(m: nat)
    ensures 16 * m % 64 % 16 == 0
  {
    Mod64Is(16 * m, m / 4, 16 * (m % 4));
    assert 16 * (m % 4) % 16 == 0;
  }

  lemma LastDigits(b0: nat, b1: nat)
    requires b0 < 256 && b1 < 256
    ensures Digit6(b0 * 65536, 1) % 16 == 0
    ensures Digit6(b0 * 65536 + b1 * 256, 2) % 4 == 0
  {
    var t := b0 * 65536 + b1 * 256;
    assert t / 64 == 4 * (b0 * 256 + b1);
    assert b0 * 65536 / 4096 == 16 * b0;
    Low2Bits(b0 * 256 + b1);
    Low4Bits(b0);
  }

  lemma WholeChunk(n: nat, k: nat)
    requires k < n <= k + 3 && k % 3 == 0 && n % 3 == 0
    ensures n == k + 3
  {
  }

  lemma AlphabetConcat(a: seq<Byte>, b: seq<Byte>)
    requires AllInAlphabet(a) && AllInAlphabet(b)
    ensures AllInAlphabet(a + b)
  {
  }

  lemma {:induction false} FullIsInAlphabet(data: seq<Byte>)
    requires |data| % 3 == 0
    ensures AllInAlphabet(Encoded(data))
  {
    if data != [] {
      var k := LastStart(|data|, 3);
      var before, last := data[..k], data[k..];
      WholeChunk(|data|, k);
      FullIsInAlphabet(before);
      ChunkIsLastQuad(last);
      AlphabetConcat(Encoded(before), EncodeChunk(last));
    }
  }

  lemma CanonicalConcat(before: seq<Byte>, last: seq<Byte>)
    requires |before| % 4 == 0 && AllInAlphabet(before) && LastQuad(last)
    ensures Canonical(before + last)
  {
    var text := before + last;
    assert text[..|text| - 4] == before && text[|text| - 4..] == last;
  }

  lemma EncodedIsCanonical(data: seq<Byte>)
    ensures Canonical(Encoded(data))
  {
    if data != [] {
      var k := LastStart(|data|, 3);
      EncodedLength(data[..k]);
      FullIsInAlphabet(data[..k]);
      ChunkIsLastQuad(data[k..]);
      CanonicalConcat(Encoded(data[..k]), EncodeChunk(data[k..]));
    }
  }

  /** Encoding gives back what was decoded exactly for the canonical texts. */
  lemma CanonicalTexts(text: seq<Byte>)
    ensures Encoded(Decoded(text)) == text <==> Canonical(text)
  {
    if Canonical(text) {
      CanonicalRoundTrip(text);
    } else {
      EncodedIsCanonical(Decoded(text));
    }
  }

  // ------------------------------------------------------------ the standard

  lemma OneChunk(c: seq<Byte>)
    requires 1 <= |c| <= 3
    ensures Encoded(c) == EncodeChunk(c)
  {
    LastStartIs(|c|, 0);
    assert c[..0] == [] && c[0..] == c;
  }

  /** The four groups of six bits in three bytes. */
  lemma SixBits(b0: Byte, b1: Byte, b2: Byte)
    ensures var t := b0 * 65536 + b1 * 256 + b2;
            && t / 262144 % 64 == b0 / 4 && t / 4096 % 64 == b0 % 4 * 16 + b1 / 16
            && t / 64 % 64 == b1 % 16 * 4 + b2 / 64 && t % 64 == b2 % 64
  {
    var t := b0 * 65536 + b1 * 256 + b2;
    var g0, g1, g2, g3 := b0 / 4, b0 % 4 * 16 + b1 / 16, b1 % 16 * 4 + b2 / 64, b2 % 64;
    assert t == g0 * 262144 + g1 * 4096 + g2 * 64 + g3;
    DigitsOf(g0, g1, g2, g3);
  }

  /** Three bytes are printed as section 4 of RFC 4648 says: six bits at a time, highest bits first. */
  lemma ThreeBytes(b0: Byte, b1: Byte, b2: Byte)
    ensures Encoded([b0, b1, b2]) ==
            [Symbol(b0 / 4), Symbol(b0 % 4 * 16 + b1 / 16), Symbol(b1 % 16 * 4 + b2 / 64), Symbol(b2 % 64)]
  {
    OneChunk([b0, b1, b2]);
    Join3Is(b0, b1, b2);
    SixBits(b0, b1, b2);
  }

  lemma TwoBytes(b0: Byte, b1: Byte)
    ensures Encoded([b0, b1]) == [Symbol(b0 / 4), Symbol(b0 % 4 * 16 + b1 / 16), Symbol(b1 % 16 * 4), '=' as nat]
  {
    OneChunk([b0, b1]);
    Join3Is(b0, b1, 0);
    SixBits(b0, b1, 0);
  }

  lemma OneByte(b0: Byte)
    ensures Encoded([b0]) == [Symbol(b0 / 4), Symbol(b0 % 4 * 16), '=' as nat, '=' as nat]
  {
    OneChunk([b0]);
    Join3Is(b0, 0, 0);
    SixBits(b0, 0, 0);
  }

  /** Any other byte is read as 255 if it is within the table, and as zero beyond. */
  lemma OtherBytes(c: Byte)
    requires !(65 <= c <= 90) && !(97 <= c <= 122) && !(48 <= c <= 57) && c != 43 && c != 47
    ensures ValueOf(c) == if c < 128 then 255 else 0
    ensures !InAlphabet(c)
  {
  }
}
