/**
 The primitive fields of the serialized formats: base-128 unsigned varints of at most 64 bits,
 zigzag signed varints and fixed little-endian words, as encoders and as parsers that consume
 a prefix of their input.

 A parser accepts more byte strings than the encoder writes: a varint may carry trailing zero
 groups. VarintExact says exactly when it does not.
 */
module Wire {

  type Byte = b: int | 0 <= b < 256

  const MAX_VARINT_LENGTH: nat := 10
  const TWO_63: int := 0x8000_0000_0000_0000
  const TWO_64: int := 0x1_0000_0000_0000_0000

  datatype Error = Truncated | BadVersion | BadScale | Corrupt

  datatype Result<T> = Ok(value: T) | Err(error: Error) {
    predicate IsFailure() { Err? }

    function PropagateFailure<U>(): Result<U>
      requires Err?
    {
      Err(error)
    }

    function Extract(): T
      requires Ok?
    {
      value
    }
  }

  /** A parsed field and the input after it. */
  datatype Read<T> = Read(value: T, rest: seq<Byte>)

  // ---------------------------------------------------------------------------------------
  // Unsigned varints.

  function UvarintBytes(x: nat): (out: seq<Byte>)
    ensures out != []
  {
    if x < 128 then [x] else [128 + x % 128] + UvarintBytes(x / 128)
  }

  /** The first varint of s, of which i bytes have been read already. */
  function ReadUvarintFrom(s: seq<Byte>, i: nat): (r: Result<Read<nat>>)
    ensures r.Ok? ==> |r.value.rest| < |s|
  {
    if s == [] then Err(Truncated)
    else if i == MAX_VARINT_LENGTH then Err(Corrupt)
    else if s[0] < 128 then
      if i == MAX_VARINT_LENGTH - 1 && s[0] > 1 then Err(Corrupt) else Ok(Read(s[0], s[1..]))
    else
      var r :- ReadUvarintFrom(s[1..], i + 1);
      Ok(Read(s[0] - 128 + 128 * r.value, r.rest))
  }

  function ReadUvarint(s: seq<Byte>): (r: Result<Read<nat>>)
    ensures r.Ok? ==> |r.value.rest| < |s|
  {
    ReadUvarintFrom(s, 0)
  }

  /** One more than the largest value the bytes from position i on can add, in units of 128^i. */
  function Room(i: nat): nat
    requires i < MAX_VARINT_LENGTH
    decreases MAX_VARINT_LENGTH - i
  {
    if i == MAX_VARINT_LENGTH - 1 then 2 else 128 * Room(i + 1)
  }

  lemma RoomIs64Bits()
    ensures Room(0) == TWO_64
  {
    assert Room(9) == 2;
    assert Room(8) == 0x100 && Room(7) == 0x8000 && Room(6) == 0x40_0000;
    assert Room(5) == 0x2000_0000 && Room(4) == 0x10_0000_0000 && Room(3) == 0x800_0000_0000;
    assert Room(2) == 0x4_0000_0000_0000 && Room(1) == 0x200_0000_0000_0000;
  }

  lemma {:induction false} ReadsBackFrom(x: nat, rest: seq<Byte>, i: nat)
    requires i < MAX_VARINT_LENGTH && x < Room(i)
    ensures ReadUvarintFrom(UvarintBytes(x) + rest, i) == Ok(Read(x, rest))
  {
    var s := UvarintBytes(x) + rest;
    if x < 128 {
      assert s[1..] == rest;
    } else {
      ReadsBackFrom(x / 128, rest, i + 1);
      assert s[1..] == UvarintBytes(x / 128) + rest;
    }
  }

  /** Every 64-bit value reads back from what was written for it, and nothing after it is
      consumed. */
  lemma VarintReadsBack(x: nat, rest: seq<Byte>)
    requires x < TWO_64
    ensures ReadUvarint(UvarintBytes(x) + rest) == Ok(Read(x, rest))
  {
    RoomIs64Bits();
    ReadsBackFrom(x, rest, 0);
  }

  lemma {:induction false} ReadInRange(s: seq<Byte>, i: nat)
    requires i <= MAX_VARINT_LENGTH && ReadUvarintFrom(s, i).Ok?
    ensures i < MAX_VARINT_LENGTH && ReadUvarintFrom(s, i).value.value < Room(i)
  {
    if s[0] < 128 {
      if i < MAX_VARINT_LENGTH - 1 { RoomLarge(i); }
    } else {
      ReadInRange(s[1..], i + 1);
    }
  }

  lemma RoomLarge(i: nat)
    requires i < MAX_VARINT_LENGTH - 1
    ensures Room(i) >= 128
    decreases MAX_VARINT_LENGTH - i
  {
    if i < MAX_VARINT_LENGTH - 2 { RoomLarge(i + 1); }
  }

  /** What is accepted as a varint is a 64-bit value. */
  lemma VarintInRange(s: seq<Byte>)
    requires ReadUvarint(s).Ok?
    ensures ReadUvarint(s).value.value < TWO_64
  {
    RoomIs64Bits();
    ReadInRange(s, 0);
  }

  /** The varint at the front of s has no trailing zero group: one byte, or a last byte that is
      not zero. */
  predicate MinimalVarint(s: seq<Byte>) {
    s != [] && (s[0] < 128 || MinimalTail(s[1..]))
  }

  predicate MinimalTail(s: seq<Byte>) {
    s != [] && if s[0] < 128 then s[0] != 0 else MinimalTail(s[1..])
  }

  lemma {:induction false} TailExact(s: seq<Byte>, i: nat)
    requires i <= MAX_VARINT_LENGTH && ReadUvarintFrom(s, i).Ok?
    ensures var r := ReadUvarintFrom(s, i).value;
            && (MinimalTail(s) ==> r.value > 0)
            && (r.value > 0 ==> (MinimalTail(s) <==> s == UvarintBytes(r.value) + r.rest))
  {
    var r := ReadUvarintFrom(s, i).value;
    if s[0] < 128 {
      assert s == [s[0]] + s[1..];
    } else {
      TailExact(s[1..], i + 1);
      GroupExact(s, r.value, ReadUvarintFrom(s[1..], i + 1).value.value, r.rest);
    }
  }

  /** A continued varint equals what is written for its value exactly when its tail does. */
  lemma GroupExact(s: seq<Byte>, x: nat, high: nat, rest: seq<Byte>)
    requires s != [] && s[0] >= 128 && x == s[0] - 128 + 128 * high
    ensures high > 0 ==> (s == UvarintBytes(x) + rest <==> s[1..] == UvarintBytes(high) + rest)
    ensures high == 0 ==> s != UvarintBytes(x) + rest
  {
    if high > 0 {
      assert x % 128 == s[0] - 128 && x / 128 == high;
      var out := UvarintBytes(x) + rest;
      assert out[0] == s[0] && out[1..] == UvarintBytes(high) + rest;
      assert s == [s[0]] + s[1..] && out == [out[0]] + out[1..];
    } else {
      assert (UvarintBytes(x) + rest)[0] == x < 128;
    }
  }

  /** An accepted varint is byte for byte what would be written for its value exactly when it
      is minimal. */
  lemma VarintExact(s: seq<Byte>)
    requires ReadUvarint(s).Ok?
    ensures var r := ReadUvarint(s).value;
            MinimalVarint(s) <==> s == UvarintBytes(r.value) + r.rest
  {
    var r := ReadUvarint(s).value;
    if s[0] < 128 {
      assert s == [s[0]] + s[1..];
    } else {
      TailExact(s[1..], 1);
      GroupExact(s, r.value, ReadUvarintFrom(s[1..], 1).value.value, r.rest);
    }
  }

  // ---------------------------------------------------------------------------------------
  // Signed varints.

  /** Zigzag: 0, -1, 1, -2, ... become 0, 1, 2, 3, ... */
  function Zigzag(x: int): nat { if x >= 0 then 2 * x else -2 * x - 1 }

  function Unzigzag(u: nat): int { if u % 2 == 0 then u / 2 else -(u / 2) - 1 }

  function VarintBytes(x: int): seq<Byte> { UvarintBytes(Zigzag(x)) }

  function ReadVarint(s: seq<Byte>): (r: Result<Read<int>>)
    ensures r.Ok? ==> |r.value.rest| < |s|
  {
    var r :- ReadUvarint(s);
    Ok(Read(Unzigzag(r.value), r.rest))
  }

  lemma ZigzagInverse(x: int, u: nat)
    ensures Unzigzag(Zigzag(x)) == x && Zigzag(Unzigzag(u)) == u
    ensures -TWO_63 <= x < TWO_63 <==> Zigzag(x) < TWO_64
  {
  }

  lemma SignedReadsBack(x: int, rest: seq<Byte>)
    requires -TWO_63 <= x < TWO_63
    ensures ReadVarint(VarintBytes(x) + rest) == Ok(Read(x, rest))
  {
    ZigzagInverse(x, 0);
    VarintReadsBack(Zigzag(x), rest);
  }

  lemma SignedExact(s: seq<Byte>)
    requires ReadVarint(s).Ok?
    ensures var r := ReadVarint(s).value;
            MinimalVarint(s) <==> s == VarintBytes(r.value) + r.rest
  {
    ZigzagInverse(0, ReadUvarint(s).value.value);
    VarintExact(s);
  }

  // ---------------------------------------------------------------------------------------
  // Fixed words.

  function WordBytes(x: nat, n: nat): (out: seq<Byte>)
    ensures |out| == n
  {
    if n == 0 then [] else [x % 256] + WordBytes(x / 256, n - 1)
  }

  function WordValue(s: seq<Byte>): nat {
    if s == [] then 0 else s[0] + 256 * WordValue(s[1..])
  }

  function ReadWord(s: seq<Byte>): (r: Result<Read<nat>>) {
    if |s| < 8 then Err(Truncated) else Ok(Read(WordValue(s[..8]), s[8..]))
  }

  function Pow256(n: nat): nat { if n == 0 then 1 else 256 * Pow256(n - 1) }

  lemma {:induction false} WordOfBytes(x: nat, n: nat)
    requires x < Pow256(n)
    ensures WordValue(WordBytes(x, n)) == x
  {
    if n > 0 {
      WordOfBytes(x / 256, n - 1);
      assert WordBytes(x, n)[1..] == WordBytes(x / 256, n - 1);
    }
  }

  lemma {:induction false} BytesOfWord(s: seq<Byte>)
    ensures WordValue(s) < Pow256(|s|) && WordBytes(WordValue(s), |s|) == s
  {
    if s != [] {
      BytesOfWord(s[1..]);
      assert s == [s[0]] + s[1..];
    }
  }

  lemma EightBytes()
    ensures Pow256(8) == TWO_64
  {
    assert Pow256(2) == 0x1_0000 && Pow256(4) == 0x1_0000_0000 && Pow256(6) == 0x1_0000_0000_0000;
  }

  lemma WordReadsBack(x: nat, rest: seq<Byte>)
    requires x < TWO_64
    ensures ReadWord(WordBytes(x, 8) + rest) == Ok(Read(x, rest))
  {
    EightBytes();
    WordOfBytes(x, 8);
    assert (WordBytes(x, 8) + rest)[..8] == WordBytes(x, 8);
  }

  /** A word is written one way only. */
  lemma WordExact(s: seq<Byte>)
    requires ReadWord(s).Ok?
    ensures var r := ReadWord(s).value; r.value < TWO_64 && s == WordBytes(r.value, 8) + r.rest
  {
    EightBytes();
    BytesOfWord(s[..8]);
    assert s == s[..8] + s[8..];
  }

  // ---------------------------------------------------------------------------------------
  // Cut input.

  ghost predicate Suffix(rest: seq<Byte>, s: seq<Byte>)
    ensures Suffix(rest, s) ==> |rest| <= |s|
  {
    |rest| <= |s| && s[|s| - |rest|..] == rest
  }

  /** What parsing s cut to k bytes gives, when all of s parses to full: the field is truncated
      if the cut falls inside it, and unchanged otherwise. */
  ghost predicate Cut<T(!new)>(s: seq<Byte>, k: nat, full: Result<Read<T>>, cut: Result<Read<T>>)
    requires full.Ok?
  {
    var r := full.value;
    var used := |s| - |r.rest|;
    && Suffix(r.rest, s) && k <= |s|
    && cut == if k < used then Err(Truncated) else Ok(Read(r.value, r.rest[..k - used]))
  }

  lemma {:induction false} VarintCut(s: seq<Byte>, i: nat, k: nat)
    requires k <= |s| && ReadUvarintFrom(s, i).Ok?
    ensures Cut(s, k, ReadUvarintFrom(s, i), ReadUvarintFrom(s[..k], i))
  {
    if s[0] >= 128 {
      VarintCut(s[1..], i + 1, if k == 0 then 0 else k - 1);
    }
    if k > 0 {
      assert s[..k][1..] == s[1..][..k - 1];
    }
  }

  lemma UvarintCut(s: seq<Byte>, k: nat)
    requires k <= |s| && ReadUvarint(s).Ok?
    ensures Cut(s, k, ReadUvarint(s), ReadUvarint(s[..k]))
  {
    VarintCut(s, 0, k);
  }

  lemma SignedCut(s: seq<Byte>, k: nat)
    requires k <= |s| && ReadVarint(s).Ok?
    ensures Cut(s, k, ReadVarint(s), ReadVarint(s[..k]))
  {
    VarintCut(s, 0, k);
  }

  lemma WordCut(s: seq<Byte>, k: nat)
    requires k <= |s| && ReadWord(s).Ok?
    ensures Cut(s, k, ReadWord(s), ReadWord(s[..k]))
  {
    if k >= 8 {
      assert s[..k][..8] == s[..8];
      assert s[..k][8..] == s[8..][..k - 8];
    }
  }

  lemma SuffixOfSuffix(rest: seq<Byte>, mid: seq<Byte>, s: seq<Byte>)
    requires Suffix(rest, mid) && Suffix(mid, s)
    ensures Suffix(rest, s)
  {
  }
}
