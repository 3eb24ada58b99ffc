/**
The inline base64 codec for audio blocks (section 4 of RFC 4648).

`Encode` and `Decode` say chunk by chunk what the two loops compute; the methods are proved to
compute them.  The decoder drops every '=' wherever it stands and ignores leftover bits, so it
accepts more than the encoder produces; `Canonical` is the RFC's own description of what the
encoder may produce, and the round trips are exact with respect to it.
*/
module Base64 {
  import opened Common

  const UPPER := "ABCDEFGHIJKLMNOPQRSTUVWXYZ"
  const LOWER := "abcdefghijklmnopqrstuvwxyz"
  const DIGITS := "0123456789+/"
  const ALPHABET: string := UPPER + LOWER + DIGITS

  const PAD: char := '='

  type Sextet = n: int | 0 <= n < 64

  /** The 64 symbols, by ranges. */
  function Symbol(n: Sextet): char {
    if n < 26 then 'A' + n as char
    else if n < 52 then 'a' + (n - 26) as char
    else if n < 62 then '0' + (n - 52) as char
    else if n == 62 then '+' else '/'
  }

  lemma AlphabetIsSymbols()
    ensures |ALPHABET| == 64 && forall n: Sextet :: ALPHABET[n] == Symbol(n)
  {
    assert forall n :: 0 <= n < 26 ==> UPPER[n] == Symbol(n);
    assert forall n :: 0 <= n < 26 ==> LOWER[n] == Symbol(26 + n);
    assert forall n :: 0 <= n < 12 ==> DIGITS[n] == Symbol(52 + n);
  }

  /** The first position of `c` in the alphabet, from position `i` on. */
  function Position(c: char, i: nat): (r: Option<Sextet>)
    requires i <= |ALPHABET| == 64
    decreases |ALPHABET| - i
  {
    if i == |ALPHABET| then None else if ALPHABET[i] == c then Some(i) else Position(c, i + 1)
  }

  function Value(c: char): Option<Sextet> { Position(c, 0) }

  lemma {:induction false} PositionFound(c: char, i: nat)
    requires i <= |ALPHABET| == 64
    ensures match Position(c, i)
      case Some(n) => i <= n && Symbol(n) == c
      case None => forall n: Sextet :: i <= n ==> Symbol(n) != c
    decreases |ALPHABET| - i
  {
    AlphabetIsSymbols();
    if i < |ALPHABET| && ALPHABET[i] != c {
      PositionFound(c, i + 1);
    }
  }

  lemma SymbolsDiffer(m: Sextet, n: Sextet)
    ensures Symbol(m) == Symbol(n) ==> m == n
    ensures Symbol(n) != PAD
  {
  }

  /** `Value` inverts `Symbol`, and nothing else has a value. */
  lemma ValueOfSymbol(c: char)
    ensures Value(c).Some? <==> exists n: Sextet :: Symbol(n) == c
    ensures forall n: Sextet :: Symbol(n) == c <==> Value(c) == Some(n)
    ensures Value(c).Some? ==> c != PAD
  {
    PositionFound(c, 0);
    if Value(c).Some? {
      var v := Value(c).value;
      SymbolsDiffer(v, v);
      forall n: Sextet ensures Symbol(n) == c <==> n == v {
        SymbolsDiffer(n, v);
      }
    }
  }

  // ---------------------------------------------------------------- bits

  /** On 32-bit words: OR-ing shifted bytes is the positional sum, and shift-and-mask takes its digits. */
  lemma EncoderBits(a: bv32, b: bv32, c: bv32, n: bv32)
    requires a < 256 && b < 256 && c < 256 && n < 0x100_0000
    ensures (a << 16) | (b << 8) | c == a * 65536 + b * 256 + c
    ensures (n >> 18) & 63 == n / 262144 && (n >> 12) & 63 == n / 4096 % 64
    ensures (n >> 6) & 63 == n / 64 % 64 && (n & 63) == n % 64
  {
  }

  /** OR-ing in a word that meets only zero bits adds it; the decoder's symbols do (see `ZeroBelow`). */
  lemma OrIsPlus(x: bv32, y: bv32)
    requires (x & y) == 0
    ensures x | y == x + y
  {
  }

  /** The decoder's masks take the bytes of its word. */
  lemma DecoderMasks(n: bv32)
    requires n < 0x100_0000
    ensures (n >> 16) & 0xff == n / 65536 && (n >> 8) & 0xff == n / 256 % 256 && n & 0xff == n % 256
  {
  }

  /** Its shifts put a symbol in its place: below the first, 18 bits are left, and so on. */
  lemma DecoderShifts(v: bv32)
    requires v < 64
    ensures v << 18 == v * 262144 && v << 12 == v * 4096 && v << 6 == v * 64 && v << 0 == v
  {
  }

  /** So a symbol in its place meets only zero bits, and OR-ing it in adds it (`OrIsPlus`, `ZeroBelow`). */
  lemma BelowZeroBits(n: bv32, v: bv32)
    requires v < 64
    ensures n & 0x3ffff == 0 ==> n & (v << 12) == 0
    ensures n & 0xfff == 0 ==> n & (v << 6) == 0
    ensures n & 0x3f == 0 ==> n & v == 0
  {
  }

  // ---------------------------------------------------------------- encoding

  function Pack(chunk: seq<byte>): (n: nat)
    requires 1 <= |chunk| <= 3
    ensures n < 0x100_0000
  {
    var b0: int, b1: int, b2: int :=
      chunk[0], if |chunk| > 1 then chunk[1] else 0, if |chunk| > 2 then chunk[2] else 0;
    b0 * 65536 + b1 * 256 + b2
  }

  function EncodeChunk(chunk: seq<byte>): (r: string)
    requires 1 <= |chunk| <= 3
    ensures |r| == 4
  {
    var n := Pack(chunk);
    [Symbol(n / 262144), Symbol(n / 4096 % 64),
     if |chunk| > 1 then Symbol(n / 64 % 64) else PAD,
     if |chunk| > 2 then Symbol(n % 64) else PAD]
  }

  function Encode(input: seq<byte>): string {
    if input == [] then ""
    else if |input| <= 3 then EncodeChunk(input)
    else EncodeChunk(input[..3]) + Encode(input[3..])
  }

  lemma FirstChunk(out: string, rest: seq<byte>, chunk: seq<byte>)
    requires rest != [] && chunk == if |rest| <= 3 then rest else rest[..3]
    ensures out + Encode(rest) == out + EncodeChunk(chunk) + Encode(rest[|chunk|..])
  {
  }

  method EncodeBytes(input: seq<byte>) returns (out: string)
    ensures out == Encode(input)
  {
    out := "";
    var i := 0;
    while i < |input|
      invariant i <= |input|
      invariant out + Encode(input[i..]) == Encode(input)
    {
      var chunk := input[i..if i + 3 <= |input| then i + 3 else |input|];
      ghost var rest := input[i..];
      FirstChunk(out, rest, chunk);
      out := out + EncodeChunk(chunk);
      i := i + |chunk|;
      assert input[i..] == rest[|chunk|..];
    }
  }

  // ---------------------------------------------------------------- decoding

  function Clean(s: string): string {
    if s == "" then "" else if s[0] == PAD then Clean(s[1..]) else [s[0]] + Clean(s[1..])
  }

  /** The i-th symbol of a group of four in its place: `v << (18 - 6 * i)`. */
  function Shifted(v: Sextet, i: nat): nat
    requires i < 4
  {
    if i == 0 then v * 262144 else if i == 1 then v * 4096 else if i == 2 then v * 64 else v
  }

  /** The bits below the i-th symbol of `n` are zero, so that OR-ing in the next one is adding it. */
  predicate ZeroBelow(n: nat, k: nat)
    requires k <= 4
  {
    if k == 0 then n == 0
    else if k == 1 then n % 262144 == 0 && n <= 0x100_0000 - 262144
    else if k == 2 then n % 4096 == 0 && n <= 0x100_0000 - 4096
    else if k == 3 then n % 64 == 0 && n <= 0x100_0000 - 64
    else n < 0x100_0000
  }

  lemma Multiples(q: nat)
    ensures 4096 * q % 4096 == 0 && 4096 * q / 4096 == q
    ensures 64 * q % 64 == 0 && 64 * q / 64 == q
  {
  }

  lemma StaysZeroBelow(n: nat, v: Sextet, i: nat)
    requires i < 4 && ZeroBelow(n, i)
    ensures ZeroBelow(n + Shifted(v, i), i + 1)
  {
    if i == 1 {
      var q := 64 * (n / 262144) + v;
      assert n + Shifted(v, i) == 4096 * q;
      Multiples(q);
    } else if i == 2 {
      var q := 64 * (n / 4096) + v;
      assert n + Shifted(v, i) == 64 * q;
      Multiples(q);
    }
  }

  /** The value of the first `k` symbols of a group, or None when one of them is no symbol.  The bits below stay zero. */
  function Unpack(chunk: string, k: nat): (r: Option<nat>)
    requires k <= |chunk| <= 4
    ensures r.Some? ==> ZeroBelow(r.value, k)
  {
    if k == 0 then Some(0)
    else
      match (Unpack(chunk, k - 1), Value(chunk[k - 1]))
      case (Some(n), Some(v)) => StaysZeroBelow(n, v, k - 1); Some(n + Shifted(v, k - 1))
      case _ => None
  }

  function Bytes(n: nat, symbols: nat): (r: seq<byte>)
    requires n < 0x100_0000
  {
    [n / 65536] + (if symbols > 2 then [n / 256 % 256] else []) + (if symbols > 3 then [n % 256] else [])
  }

  const INVALID := "invalid base64 char"

  function DecodeGroups(s: string): Result<seq<byte>, string> {
    if s == "" then Ok([])
    else
      var k := if |s| < 4 then |s| else 4;
      match Unpack(s[..k], k)
      case None => Err(INVALID)
      case Some(n) =>
        match DecodeGroups(s[k..])
        case Err(e) => Err(e)
        case Ok(rest) => Ok(Bytes(n, k) + rest)
  }

  function Decode(input: string): Result<seq<byte>, string> { DecodeGroups(Clean(input)) }

  function After(out: seq<byte>, r: Result<seq<byte>, string>): Result<seq<byte>, string> {
    match r
    case Err(e) => Err(e)
    case Ok(rest) => Ok(out + rest)
  }

  lemma {:induction false} FirstGroup(out: seq<byte>, rest: string, chunk: string, n: nat)
    requires rest != "" && chunk == (if |rest| < 4 then rest else rest[..4]) && Unpack(chunk, |chunk|) == Some(n)
    ensures n < 0x100_0000
    ensures After(out, DecodeGroups(rest)) == After(out + Bytes(n, |chunk|), DecodeGroups(rest[|chunk|..]))
  {
    assert rest[..|chunk|] == chunk;
    match DecodeGroups(rest[|chunk|..])
    case Err(_) =>
    case Ok(later) => assert out + (Bytes(n, |chunk|) + later) == out + Bytes(n, |chunk|) + later;
  }

  lemma {:induction false} UnpackFails(chunk: string, i: nat, k: nat)
    requires i < k <= |chunk| <= 4 && Value(chunk[i]).None?
    ensures Unpack(chunk, k).None?
  {
    if i < k - 1 {
      UnpackFails(chunk, i, k - 1);
    }
  }

  /** The loop over one group of symbols. */
  method GroupValue(chunk: string) returns (n: Option<nat>)
    requires |chunk| <= 4
    ensures n == Unpack(chunk, |chunk|)
  {
    var sum := 0;
    for i := 0 to |chunk|
      invariant Unpack(chunk, i) == Some(sum)
    {
      var v := Value(chunk[i]);
      if v.None? {
        UnpackFails(chunk, i, |chunk|);
        return None;
      }
      sum := sum + Shifted(v.value, i);
    }
    return Some(sum);
  }

  /** `whole` is `out` followed by what the remaining groups decode to, or their error. */
  ghost predicate Decoding(whole: Result<seq<byte>, string>, out: seq<byte>, rest: string) {
    whole == After(out, DecodeGroups(rest))
  }

  lemma EmptyBefore(r: Result<seq<byte>, string>)
    ensures After([], r) == r
  {
    if r.Ok? {
      assert [] + r.value == r.value;
    }
  }

  method DecodeString(input: string) returns (r: Result<seq<byte>, string>)
    ensures r == Decode(input)
  {
    var cleaned := Clean(input);
    var out: seq<byte> := [];
    var at := 0;
    EmptyBefore(DecodeGroups(cleaned));
    while at < |cleaned|
      invariant at <= |cleaned|
      invariant Decoding(Decode(input), out, cleaned[at..])
    {
      var chunk := cleaned[at..if at + 4 <= |cleaned| then at + 4 else |cleaned|];
      ghost var rest := cleaned[at..];
      assert rest[..|chunk|] == chunk && rest[|chunk|..] == cleaned[at + |chunk|..];
      var n := GroupValue(chunk);
      if n.None? {
        return Err(INVALID);
      }
      FirstGroup(out, rest, chunk, n.value);
      out := out + Bytes(n.value, |chunk|);
      at := at + |chunk|;
    }
    r := Ok(out);
    assert out + [] == out;
  }

  // ---------------------------------------------------------------- what the RFC allows

  predicate IsSymbol(c: char) { Value(c).Some? }

  predicate FullQuantum(q: string) {
    |q| == 4 && IsSymbol(q[0]) && IsSymbol(q[1]) && IsSymbol(q[2]) && IsSymbol(q[3])
  }

  /** The last quantum: whole, or one or two pads after symbols whose unused bits are zero. */
  predicate LastQuantum(q: string) {
    || FullQuantum(q)
    || (&& |q| == 4 && IsSymbol(q[0]) && IsSymbol(q[1]) && IsSymbol(q[2]) && q[3] == PAD
        && Value(q[2]).value % 4 == 0)
    || (&& |q| == 4 && IsSymbol(q[0]) && IsSymbol(q[1]) && q[2] == PAD && q[3] == PAD
        && Value(q[1]).value % 16 == 0)
  }

  predicate Canonical(s: string) {
    if s == "" then true
    else if |s| <= 4 then LastQuantum(s)
    else FullQuantum(s[..4]) && Canonical(s[4..])
  }

  // ---------------------------------------------------------------- round trips

  lemma CleanStep(s: string)
    requires s != ""
    ensures Clean(s) == (if s[0] == PAD then "" else [s[0]]) + Clean(s[1..])
  {
  }

  lemma {:induction false} CleanAppend(s: string, t: string)
    ensures Clean(s + t) == Clean(s) + Clean(t)
  {
    if s == "" {
      assert s + t == t;
    } else {
      assert (s + t)[1..] == s[1..] + t && (s + t)[0] == s[0];
      CleanAppend(s[1..], t);
      CleanStep(s);
      CleanStep(s + t);
    }
  }

  lemma {:induction false} CleanKeeps(s: string)
    requires forall i :: 0 <= i < |s| ==> s[i] != PAD
    ensures Clean(s) == s
  {
    if s != "" {
      CleanKeeps(s[1..]);
    }
  }

  /** The symbols of one encoded chunk, without padding. */
  function Symbols(chunk: seq<byte>): (r: string)
    requires 1 <= |chunk| <= 3
    ensures |r| == |chunk| + 1
  {
    EncodeChunk(chunk)[..|chunk| + 1]
  }

  lemma SymbolIsNotPad(n: Sextet)
    ensures Symbol(n) != PAD
  {
    ValueOfSymbol(Symbol(n));
  }

  lemma CleanChunk(chunk: seq<byte>)
    requires 1 <= |chunk| <= 3
    ensures Clean(EncodeChunk(chunk)) == Symbols(chunk)
  {
    var e := EncodeChunk(chunk);
    var k := |chunk| + 1;
    SymbolIsNotPad(Pack(chunk) / 262144);
    SymbolIsNotPad(Pack(chunk) / 4096 % 64);
    SymbolIsNotPad(Pack(chunk) / 64 % 64);
    SymbolIsNotPad(Pack(chunk) % 64);
    assert forall i :: 0 <= i < k ==> e[i] != PAD;
    CleanKeeps(e[..k]);
    CleanAppend(e[..k], e[k..]);
    assert e == e[..k] + e[k..];
    assert Clean(e[k..]) == "" by {
      if |chunk| == 1 {
        assert e[k..] == [PAD, PAD] && e[k..][1..] == [PAD] && e[k..][1..][1..] == "";
      } else if |chunk| == 2 {
        assert e[k..] == [PAD] && e[k..][1..] == "";
      }
    }
  }

  /** The first `k` symbols unpack to `n`. */
  ghost predicate Unpacks(s: string, k: nat, n: int)
    requires k <= |s| <= 4
  {
    n >= 0 && Unpack(s, k) == Some(n)
  }

  lemma UnpackNone(s: string)
    requires |s| <= 4
    ensures Unpacks(s, 0, 0)
  {
  }

  lemma UnpackStep(s: string, k: nat, n: int, v: Sextet)
    requires k < |s| <= 4 && Unpacks(s, k, n) && s[k] == Symbol(v)
    ensures Unpacks(s, k + 1, n + Shifted(v, k))
  {
    ValueOfSymbol(s[k]);
  }

  lemma DigitSums(n: nat)
    requires n < 0x100_0000
    ensures n / 262144 * 262144 + n / 4096 % 64 * 4096 == n / 4096 * 4096
    ensures n / 4096 * 4096 + n / 64 % 64 * 64 == n / 64 * 64
    ensures n / 64 * 64 + n % 64 == n
  {
    var a, b := n / 64, n / 4096;
    assert b == a / 64 && n / 262144 == b / 64;
  }

  lemma UnpackTwo(s: string, n: nat)
    requires n < 0x100_0000 && 2 <= |s| <= 4 && s[0] == Symbol(n / 262144) && s[1] == Symbol(n / 4096 % 64)
    ensures Unpacks(s, 2, n / 4096 * 4096)
  {
    DigitSums(n);
    UnpackNone(s);
    UnpackStep(s, 0, 0, n / 262144);
    UnpackStep(s, 1, n / 262144 * 262144, n / 4096 % 64);
  }

  /** The first two, three and four symbols of a 24-bit number. */
  lemma UnpackDigits(s: string, n: nat)
    requires n < 0x100_0000 && 2 <= |s| <= 4 && s[0] == Symbol(n / 262144) && s[1] == Symbol(n / 4096 % 64)
    requires (|s| > 2 ==> s[2] == Symbol(n / 64 % 64)) && (|s| > 3 ==> s[3] == Symbol(n % 64))
    ensures Unpacks(s, 2, n / 4096 * 4096)
    ensures |s| > 2 ==> Unpacks(s, 3, n / 64 * 64)
    ensures |s| > 3 ==> Unpacks(s, 4, n)
  {
    UnpackTwo(s, n);
    DigitSums(n);
    if |s| > 2 {
      UnpackStep(s, 2, n / 4096 * 4096, n / 64 % 64);
    }
    if |s| > 3 {
      UnpackStep(s, 3, n / 64 * 64, n % 64);
    }
  }

  lemma LowBits(chunk: seq<byte>)
    requires 1 <= |chunk| <= 2
    ensures |chunk| == 1 ==> Pack(chunk) == Pack(chunk) / 4096 * 4096
    ensures |chunk| == 2 ==> Pack(chunk) == Pack(chunk) / 64 * 64
  {
  }

  lemma {:induction false} UnpackSymbols(chunk: seq<byte>)
    requires 1 <= |chunk| <= 3
    ensures Unpack(Symbols(chunk), |chunk| + 1) == Some(Pack(chunk))
  {
    UnpackDigits(Symbols(chunk), Pack(chunk));
    if |chunk| < 3 {
      LowBits(chunk);
    }
  }

  lemma ByteDigits(b0: byte, b1: byte, b2: byte)
    ensures
      var n := b0 * 65536 + b1 * 256 + b2;
      n / 65536 == b0 && n / 256 % 256 == b1 && n % 256 == b2
  {
    var n := b0 * 65536 + b1 * 256 + b2;
    assert n / 256 == b0 * 256 + b1;
  }

  lemma BytesOfPack(chunk: seq<byte>)
    requires 1 <= |chunk| <= 3
    ensures Bytes(Pack(chunk), |chunk| + 1) == chunk
  {
    var b0: int, b1: int, b2: int :=
      chunk[0], if |chunk| > 1 then chunk[1] else 0, if |chunk| > 2 then chunk[2] else 0;
    ByteDigits(b0, b1, b2);
  }

  /** MAIN: every byte string survives encoding and decoding. */
  lemma {:induction false} DecodeUndoesEncode(b: seq<byte>)
    ensures Decode(Encode(b)) == Ok(b)
  {
    if b != [] {
      var k := if |b| <= 3 then |b| else 3;
      var chunk, rest := b[..k], b[k..];
      assert chunk == if |b| <= 3 then b else b[..3];
      FirstChunk("", b, chunk);
      assert Encode(b) == EncodeChunk(chunk) + Encode(rest);
      CleanAppend(EncodeChunk(chunk), Encode(rest));
      CleanChunk(chunk);
      UnpackSymbols(chunk);
      BytesOfPack(chunk);
      DecodeUndoesEncode(rest);
      var cleaned := Symbols(chunk) + Clean(Encode(rest));
      assert k < 3 ==> rest == [];
      assert cleaned[..k + 1] == Symbols(chunk) && cleaned[k + 1..] == Clean(Encode(rest));
      assert chunk + rest == b;
    }
  }

  function Pads(n: nat): string { seq(n, _ => PAD) }

  /** How many pads the encoding of `n` bytes ends in. */
  function PadCount(n: nat): nat { if n % 3 == 0 then 0 else 3 - n % 3 }

  lemma EncodeStep(b: seq<byte>) returns (chunk: seq<byte>, rest: seq<byte>)
    requires b != []
    ensures 1 <= |chunk| <= 3 && chunk + rest == b && (rest != [] ==> |chunk| == 3)
    ensures Encode(b) == EncodeChunk(chunk) + Encode(rest)
  {
    var k := if |b| <= 3 then |b| else 3;
    chunk, rest := b[..k], b[k..];
    FirstChunk("", b, chunk);
  }

  ghost predicate PaddedAtEnd(b: seq<byte>, e: string) { e == Clean(e) + Pads(PadCount(|b|)) }

  ghost predicate FourForThree(b: seq<byte>, e: string) { |e| == 4 * ((|b| + 2) / 3) }

  lemma PadsOfChunk(chunk: seq<byte>)
    requires 1 <= |chunk| <= 3
    ensures EncodeChunk(chunk) == Symbols(chunk) + Pads(3 - |chunk|)
  {
  }

  lemma PadsAfter(n: nat, chunk: nat, rest: nat)
    requires n == chunk + rest && 1 <= chunk <= 3 && (rest > 0 ==> chunk == 3)
    ensures PadCount(n) == if rest == 0 then 3 - chunk else PadCount(rest)
    ensures (n + 2) / 3 == 1 + (rest + 2) / 3
  {
  }

  lemma PaddingMoves(first: string, symbols: string, pads: string, later: string, clean: string, tail: string)
    requires first == symbols + pads && later == clean + tail
    ensures pads == "" ==> first + later == (symbols + clean) + tail
    ensures later == "" ==> first + later == (symbols + clean) + pads
  {
    if later == "" {
      assert |clean + tail| == |clean| + |tail|;
    }
  }

  lemma ShapeStep(b: seq<byte>, chunk: seq<byte>, rest: seq<byte>, e: string)
    requires 1 <= |chunk| <= 3 && |b| == |chunk| + |rest| && (rest != [] ==> |chunk| == 3) && (rest == [] ==> e == "")
    requires PaddedAtEnd(rest, e) && FourForThree(rest, e)
    ensures PaddedAtEnd(b, EncodeChunk(chunk) + e) && FourForThree(b, EncodeChunk(chunk) + e)
  {
    CleanAppend(EncodeChunk(chunk), e);
    CleanChunk(chunk);
    PadsOfChunk(chunk);
    PadsAfter(|b|, |chunk|, |rest|);
    PaddingMoves(EncodeChunk(chunk), Symbols(chunk), Pads(3 - |chunk|), e, Clean(e), Pads(PadCount(|rest|)));
  }

  lemma {:induction false} EncodeShaped(b: seq<byte>, e: string)
    requires e == Encode(b)
    ensures PaddedAtEnd(b, e) && FourForThree(b, e)
    decreases |b|
  {
    if b != [] {
      var chunk, rest := EncodeStep(b);
      EncodeShaped(rest, Encode(rest));
      ShapeStep(b, chunk, rest, Encode(rest));
    }
  }

  /** MAIN: four symbols for every three bytes or part of them, with padding at the end only. */
  lemma EncodeShape(b: seq<byte>)
    ensures |Encode(b)| == 4 * ((|b| + 2) / 3)
    ensures Encode(b) == Clean(Encode(b)) + Pads(PadCount(|b|))
  {
    EncodeShaped(b, Encode(b));
  }

  lemma LowBitsZero(b: nat)
    ensures 16 * b % 64 % 16 == 0 && 4 * b % 64 % 4 == 0
  {
    assert 16 * b == 64 * (b / 4) + 16 * (b % 4);
    assert 4 * b == 64 * (b / 16) + 4 * (b % 16);
  }

  lemma UnusedBits(chunk: seq<byte>)
    requires 1 <= |chunk| <= 2
    ensures |chunk| == 1 ==> Pack(chunk) / 4096 % 64 % 16 == 0
    ensures |chunk| == 2 ==> Pack(chunk) / 64 % 64 % 4 == 0
  {
    var b: nat := if |chunk| == 1 then chunk[0] as int else chunk[0] as int * 256 + chunk[1] as int;
    LowBitsZero(b);
    Multiples(16 * b);
    Multiples(4 * b);
    assert Pack(chunk) == if |chunk| == 1 then 4096 * (16 * b) else 64 * (4 * b);
  }

  lemma QuantumOfChunk(chunk: seq<byte>)
    requires 1 <= |chunk| <= 3
    ensures LastQuantum(EncodeChunk(chunk)) && (|chunk| == 3 ==> FullQuantum(EncodeChunk(chunk)))
  {
    var n, e := Pack(chunk), EncodeChunk(chunk);
    ValueOfSymbol(e[0]);
    ValueOfSymbol(e[1]);
    ValueOfSymbol(e[2]);
    ValueOfSymbol(e[3]);
    if |chunk| < 3 {
      UnusedBits(chunk);
    }
  }

  lemma {:induction false} EncodeIsCanonical(b: seq<byte>)
    ensures Canonical(Encode(b))
    decreases |b|
  {
    if b != [] {
      var chunk, rest := EncodeStep(b);
      QuantumOfChunk(chunk);
      EncodeIsCanonical(rest);
      EncodeShape(rest);
      if rest == [] {
        assert Encode(b) == EncodeChunk(chunk);
      } else {
        assert Encode(b)[..4] == EncodeChunk(chunk) && Encode(b)[4..] == Encode(rest);
      }
    }
  }

  /** The symbols of a quantum without its padding. */
  function Stripped(q: string): string
    requires LastQuantum(q)
  {
    if q[2] == PAD then q[..2] else if q[3] == PAD then q[..3] else q
  }

  lemma CleanQuantum(q: string)
    requires LastQuantum(q)
    ensures Clean(q) == Stripped(q)
  {
    ValueOfSymbol(q[0]);
    ValueOfSymbol(q[1]);
    ValueOfSymbol(q[2]);
    ValueOfSymbol(q[3]);
    var body := Stripped(q);
    CleanKeeps(body);
    CleanAppend(body, q[|body|..]);
    assert q == body + q[|body|..];
    assert Clean(q[|body|..]) == "" by {
      if |body| == 2 {
        assert q[2..] == [PAD, PAD] && q[2..][1..] == [PAD] && q[2..][1..][1..] == "";
      } else if |body| == 3 {
        assert q[3..] == [PAD] && q[3..][1..] == "";
      }
    }
  }

  function Sum(v0: int, v1: int, v2: int, v3: int): int { v0 * 262144 + v1 * 4096 + v2 * 64 + v3 }

  lemma UnpackSextets(s: string, v0: Sextet, v1: Sextet, v2: Sextet, v3: Sextet)
    requires 2 <= |s| <= 4 && s[0] == Symbol(v0) && s[1] == Symbol(v1)
    requires if |s| >= 3 then s[2] == Symbol(v2) else v2 == 0
    requires if |s| == 4 then s[3] == Symbol(v3) else v3 == 0
    ensures Unpacks(s, |s|, Sum(v0, v1, v2, v3))
  {
    UnpackNone(s);
    UnpackStep(s, 0, 0, v0);
    UnpackStep(s, 1, Sum(v0, 0, 0, 0), v1);
    if |s| >= 3 {
      UnpackStep(s, 2, Sum(v0, v1, 0, 0), v2);
    }
    if |s| == 4 {
      UnpackStep(s, 3, Sum(v0, v1, v2, 0), v3);
    }
  }

  lemma SextetOf(c: char) returns (v: Sextet)
    requires IsSymbol(c)
    ensures Value(c) == Some(v) && c == Symbol(v) && c != PAD
  {
    ValueOfSymbol(c);
    v := Value(c).value;
  }

  /** The four sextets of a last quantum, 0 for a pad. */
  lemma QuantumSextets(q: string) returns (v0: Sextet, v1: Sextet, v2: Sextet, v3: Sextet)
    requires LastQuantum(q)
    ensures FullQuantum(q) ==> |Stripped(q)| == 4
    ensures Unpacks(Stripped(q), |Stripped(q)|, Sum(v0, v1, v2, v3))
    ensures q[0] == Symbol(v0) && q[1] == Symbol(v1)
    ensures if |Stripped(q)| >= 3 then q[2] == Symbol(v2) else q[2] == PAD && v2 == 0 && v1 % 16 == 0
    ensures if |Stripped(q)| == 4 then q[3] == Symbol(v3) else q[3] == PAD && v3 == 0 && v2 % 4 == 0
  {
    v0 := SextetOf(q[0]);
    v1 := SextetOf(q[1]);
    v2, v3 := 0, 0;
    if IsSymbol(q[2]) {
      v2 := SextetOf(q[2]);
    }
    if IsSymbol(q[3]) {
      v3 := SextetOf(q[3]);
    }
    UnpackSextets(Stripped(q), v0, v1, v2, v3);
  }

  lemma Multiple256(n: nat, k: nat)
    requires n == 256 * k
    ensures n % 256 == 0
  {
  }

  lemma Multiple65536(n: nat, k: nat)
    requires n == 65536 * k
    ensures n % 65536 == 0
  {
  }

  lemma UnusedAreZero(v0: Sextet, v1: Sextet, v2: Sextet, v3: Sextet)
    ensures v3 == 0 && v2 % 4 == 0 ==> Sum(v0, v1, v2, v3) % 256 == 0
    ensures v3 == 0 && v2 == 0 && v1 % 16 == 0 ==> Sum(v0, v1, v2, v3) % 65536 == 0
  {
    if v3 == 0 && v2 % 4 == 0 {
      Multiple256(Sum(v0, v1, v2, v3), v0 * 1024 + v1 * 16 + v2 / 4);
    }
    if v3 == 0 && v2 == 0 && v1 % 16 == 0 {
      Multiple65536(Sum(v0, v1, v2, v3), v0 * 4 + v1 / 16);
    }
  }

  lemma LastSextet(high: nat, low: Sextet)
    ensures (high * 64 + low) / 64 == high && (high * 64 + low) % 64 == low
  {
  }

  lemma Digits(v0: Sextet, v1: Sextet, v2: Sextet, v3: Sextet)
    ensures
      var n := Sum(v0, v1, v2, v3);
      && n < 0x100_0000
      && n / 262144 == v0 && n / 4096 % 64 == v1 && n / 64 % 64 == v2 && n % 64 == v3
      && (v3 == 0 && v2 % 4 == 0 ==> n % 256 == 0)
      && (v3 == 0 && v2 == 0 && v1 % 16 == 0 ==> n % 65536 == 0)
  {
    var n := Sum(v0, v1, v2, v3);
    LastSextet(v0 * 4096 + v1 * 64 + v2, v3);
    LastSextet(v0 * 64 + v1, v2);
    LastSextet(v0, v1);
    assert n / 4096 == n / 64 / 64 && n / 262144 == n / 4096 / 64;
    UnusedAreZero(v0, v1, v2, v3);
  }

  lemma Quotient65536(q: nat, r: nat)
    requires r < 65536
    ensures (65536 * q + r) / 65536 == q
  {
  }

  lemma Quotient256(q: nat, r: nat)
    requires r < 256
    ensures (256 * q + r) / 256 == q && (256 * q + r) % 256 == r
  {
  }

  /** The three bytes of four sextets: six bits and two, four and four, two and six. */
  lemma SextetBytes(v0: Sextet, v1: Sextet, v2: Sextet, v3: Sextet, n: nat)
    requires n == Sum(v0, v1, v2, v3)
    ensures n / 65536 == v0 * 4 + v1 / 16
    ensures n / 256 % 256 == v1 % 16 * 16 + v2 / 4
    ensures n % 256 == v2 % 4 * 64 + v3
  {
    var b0, b1, b2 := v0 * 4 + v1 / 16, v1 % 16 * 16 + v2 / 4, v2 % 4 * 64 + v3;
    assert v1 == 16 * (v1 / 16) + v1 % 16 && v2 == 4 * (v2 / 4) + v2 % 4;
    assert n == 65536 * b0 + (256 * b1 + b2) && n == 256 * (256 * b0 + b1) + b2;
    Quotient65536(b0, 256 * b1 + b2);
    Quotient256(256 * b0 + b1, b2);
    Quotient256(b0, b1);
  }

  lemma OneGroup(s: string, n: nat)
    requires 1 <= |s| <= 4 && Unpacks(s, |s|, n)
    ensures n < 0x100_0000 && DecodeGroups(s) == Ok(Bytes(n, |s|))
  {
    assert s[..|s|] == s && s[|s|..] == "";
    assert Bytes(n, |s|) + [] == Bytes(n, |s|);
  }

  lemma BytesAre(n: nat, k: nat, bytes: seq<byte>)
    requires n < 0x100_0000 && 1 <= k <= 4 && |bytes| == 3
    requires bytes[0] == n / 65536 && bytes[1] == n / 256 % 256 && bytes[2] == n % 256
    ensures Bytes(n, k) == bytes[..if k == 1 then 1 else k - 1]
  {
  }

  function ThreeBytes(v0: Sextet, v1: Sextet, v2: Sextet, v3: Sextet): (bytes: seq<byte>)
    ensures |bytes| == 3
  {
    [v0 * 4 + v1 / 16, v1 % 16 * 16 + v2 / 4, v2 % 4 * 64 + v3]
  }

  lemma SextetsToBytes(v0: Sextet, v1: Sextet, v2: Sextet, v3: Sextet, n: nat, k: nat)
    requires n == Sum(v0, v1, v2, v3) && n < 0x100_0000 && 1 <= k <= 4
    ensures Bytes(n, k) == ThreeBytes(v0, v1, v2, v3)[..if k == 1 then 1 else k - 1]
  {
    SextetBytes(v0, v1, v2, v3, n);
    BytesAre(n, k, ThreeBytes(v0, v1, v2, v3));
  }

  /**
  MAIN: what any group of symbols decodes to, canonical or not: six bits and two, four and four, two and
  six; bits left over are ignored, and a single symbol yields a byte too, which the RFC does not foresee.
  */
  lemma GroupDecodes(s: string, v0: Sextet, v1: Sextet, v2: Sextet, v3: Sextet)
    requires 1 <= |s| <= 4 && s[0] == Symbol(v0)
    requires if |s| >= 2 then s[1] == Symbol(v1) else v1 == 0
    requires if |s| >= 3 then s[2] == Symbol(v2) else v2 == 0
    requires if |s| == 4 then s[3] == Symbol(v3) else v3 == 0
    ensures DecodeGroups(s) == Ok(ThreeBytes(v0, v1, v2, v3)[..if |s| == 1 then 1 else |s| - 1])
  {
    var n := Sum(v0, v1, v2, v3);
    if |s| == 1 {
      UnpackNone(s);
      UnpackStep(s, 0, 0, v0);
    } else {
      UnpackSextets(s, v0, v1, v2, v3);
    }
    OneGroup(s, n);
    SextetsToBytes(v0, v1, v2, v3, n, |s|);
  }

  lemma ByteSums(n: nat)
    requires n < 0x100_0000
    ensures n / 65536 * 65536 + n / 256 % 256 * 256 + n % 256 == n
    ensures n % 65536 == 0 ==> n / 256 % 256 == 0 && n % 256 == 0
  {
  }

  lemma PackedAgain(n: nat, k: nat) returns (chunk: seq<byte>)
    requires n < 0x100_0000 && 2 <= k <= 4 && (k == 2 ==> n % 65536 == 0) && (k == 3 ==> n % 256 == 0)
    ensures chunk == Bytes(n, k) && |chunk| == k - 1 && Pack(chunk) == n
  {
    chunk := Bytes(n, k);
    ByteSums(n);
  }

  /** Decoding one quantum and encoding the bytes again gives it back. */
  lemma QuantumRoundTrip(q: string) returns (n: nat, chunk: seq<byte>)
    requires LastQuantum(q)
    ensures Unpacks(Stripped(q), |Stripped(q)|, n) && n < 0x100_0000
    ensures chunk == Bytes(n, |Stripped(q)|) && 1 <= |chunk| <= 3 && EncodeChunk(chunk) == q
    ensures FullQuantum(q) ==> |chunk| == 3
  {
    var v0, v1, v2, v3 := QuantumSextets(q);
    n := Sum(v0, v1, v2, v3);
    Digits(v0, v1, v2, v3);
    chunk := PackedAgain(n, |Stripped(q)|);
  }

  lemma {:induction false} CanonicalRoundTrip(s: string)
    requires Canonical(s)
    ensures Decode(s).Ok? && Encode(Decode(s).value) == s
  {
    if s != "" {
      var q, rest := s[..4], s[4..];
      assert s == q + rest;
      assert LastQuantum(q) && Canonical(rest) && (rest != "" ==> FullQuantum(q));
      CanonicalRoundTrip(rest);
      var n, chunk := QuantumRoundTrip(q);
      CleanAppend(q, rest);
      CleanQuantum(q);
      var body, cleaned := Stripped(q), Clean(s);
      assert cleaned == body + Clean(rest);
      assert rest == "" ==> Clean(rest) == "";
      var k := if |cleaned| < 4 then |cleaned| else 4;
      assert cleaned[..k] == body && cleaned[k..] == Clean(rest);
      var later := Decode(rest).value;
      assert Decode(s) == Ok(chunk + later);
      if rest == "" {
        assert later == [] && chunk + later == chunk && Encode(chunk) == EncodeChunk(chunk);
      } else {
        EncodeShape(later);
        assert (chunk + later)[..3] == chunk && (chunk + later)[3..] == later;
        FirstChunk("", chunk + later, chunk);
      }
    }
  }

  /** MAIN: exactly which texts the codec reproduces: the canonical encodings of the RFC, and no others it accepts. */
  lemma EncodeUndoesDecode(s: string)
    ensures Canonical(s) <==> Decode(s).Ok? && Encode(Decode(s).value) == s
  {
    if Canonical(s) {
      CanonicalRoundTrip(s);
    } else if Decode(s).Ok? {
      EncodeIsCanonical(Decode(s).value);
    }
  }

  lemma {:induction false} UnpackAccepts(chunk: string, k: nat)
    requires k <= |chunk| <= 4
    ensures Unpack(chunk, k).Some? <==> forall i :: 0 <= i < k ==> IsSymbol(chunk[i])
  {
    if k > 0 {
      UnpackAccepts(chunk, k - 1);
    }
  }

  lemma {:induction false} GroupsAccept(s: string)
    ensures DecodeGroups(s).Ok? <==> forall i :: 0 <= i < |s| ==> IsSymbol(s[i])
    ensures DecodeGroups(s).Err? ==> DecodeGroups(s).error == "invalid base64 char"
    ensures DecodeGroups(s).Ok? ==>
      |DecodeGroups(s).value| == |s| / 4 * 3 + (if |s| % 4 == 0 then 0 else if |s| % 4 < 3 then 1 else 2)
  {
    if s != "" {
      var k := if |s| < 4 then |s| else 4;
      var chunk, rest := s[..k], s[k..];
      UnpackAccepts(chunk, k);
      GroupsAccept(rest);
      assert s == chunk + rest;
    }
  }

  lemma {:induction false} CleanAccepts(s: string)
    ensures (forall c <- Clean(s) :: IsSymbol(c)) <==> forall c <- s :: c == PAD || IsSymbol(c)
  {
    if s != "" {
      CleanAccepts(s[1..]);
      assert s == [s[0]] + s[1..];
      ValueOfSymbol(PAD);
    }
  }

  /** MAIN: what the decoder accepts: anything made of symbols and '=', however placed; and how many bytes it yields. */
  lemma {:induction false} DecodeAccepts(s: string)
    ensures Decode(s).Ok? <==> forall c <- s :: c == PAD || IsSymbol(c)
    ensures Decode(s).Err? ==> Decode(s).error == "invalid base64 char"
    ensures Decode(s).Ok? ==>
      var n := |Clean(s)|;
      |Decode(s).value| == n / 4 * 3 + (if n % 4 == 0 then 0 else if n % 4 < 3 then 1 else 2)
  {
    GroupsAccept(Clean(s));
    CleanAccepts(s);
    assert (forall c <- Clean(s) :: IsSymbol(c)) <==> forall i :: 0 <= i < |Clean(s)| ==> IsSymbol(Clean(s)[i]);
  }
}
