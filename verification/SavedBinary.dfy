/** The binary form in which rule-set downloads are kept in the cache file: a version byte, the
    content and the etag each behind a base-128 varint length, and a big-endian 64-bit timestamp. */
module SavedBinaries {
  import opened Prelude

  type Byte = x: int | 0 <= x < 256
  type Bytes = seq<Byte>

  const TWO_63: int := 0x8000_0000_0000_0000
  const TWO_64: int := 0x1_0000_0000_0000_0000
  const NANOSECONDS: int := 1_000_000_000
  const MAX_VARINT_BYTES: nat := 10

  datatype Error = EndOfInput | Overflow

  /** A value read, and what is left of the input. */
  datatype Read<T> = Read(value: T, rest: Bytes)

  // ---------------------------------------------------------------- base-128 varints

  function Uvarint(v: nat): (r: Bytes)
    ensures r != []
  {
    if v < 0x80 then [v] else [v % 0x80 + 0x80] + Uvarint(v / 0x80)
  }

  /** Reads digit number `i` onwards; the tenth digit may only be 0 or 1. */
  function ReadUvarint(input: Bytes, i: nat): (r: Result<Read<nat>, Error>)
    ensures r.Ok? ==> |r.value.rest| < |input|
    decreases |input|
  {
    if i >= MAX_VARINT_BYTES then Err(Overflow)
    else if input == [] then Err(EndOfInput)
    else if input[0] < 0x80 then
      if i == MAX_VARINT_BYTES - 1 && input[0] > 1 then Err(Overflow) else Ok(Read(input[0], input[1..]))
    else
      var high := ReadUvarint(input[1..], i + 1);
      if high.Err? then high else Ok(Read(input[0] - 0x80 + 0x80 * high.value.value, high.value.rest))
  }

  /** Bound on the value left when digit `i` is next: 2^64 at the start, 2 at the tenth digit. */
  function Limit(i: nat): nat
    requires i < MAX_VARINT_BYTES
    decreases MAX_VARINT_BYTES - i
  {
    if i == MAX_VARINT_BYTES - 1 then 2 else 0x80 * Limit(i + 1)
  }

  lemma LimitIsUint64()
    ensures Limit(0) == TWO_64
  {
  }

  lemma {:induction false} UvarintRoundTrip(v: nat, i: nat, rest: Bytes)
    requires i < MAX_VARINT_BYTES && v < Limit(i)
    ensures ReadUvarint(Uvarint(v) + rest, i) == Ok(Read(v, rest))
    decreases v
  {
    var input := Uvarint(v) + rest;
    if v < 0x80 {
      assert input[1..] == rest;
    } else {
      assert input[1..] == Uvarint(v / 0x80) + rest;
      assert i < MAX_VARINT_BYTES - 1 ==> v / 0x80 < Limit(i + 1);
      UvarintRoundTrip(v / 0x80, i + 1, rest);
    }
  }

  lemma {:induction false} UvarintPrefixFails(v: nat, i: nat, k: nat)
    requires i < MAX_VARINT_BYTES && v < Limit(i) && k < |Uvarint(v)|
    ensures ReadUvarint(Uvarint(v)[..k], i).Err?
    decreases v
  {
    var input := Uvarint(v)[..k];
    if v >= 0x80 && k > 0 {
      assert input[1..] == Uvarint(v / 0x80)[..k - 1];
      UvarintPrefixFails(v / 0x80, i + 1, k - 1);
    }
  }

  // ---------------------------------------------------------------- fixed-width integers

  function BigEndian(v: nat, width: nat): (r: Bytes)
    ensures |r| == width
  {
    if width == 0 then [] else BigEndian(v / 256, width - 1) + [v % 256]
  }

  function FromBigEndian(s: Bytes): nat {
    if s == [] then 0 else FromBigEndian(s[..|s| - 1]) * 256 + s[|s| - 1]
  }

  function Power256(width: nat): nat {
    if width == 0 then 1 else 256 * Power256(width - 1)
  }

  lemma {:induction false} BigEndianRoundTrip(v: nat, width: nat)
    requires v < Power256(width)
    ensures FromBigEndian(BigEndian(v, width)) == v
  {
    if width > 0 {
      var s := BigEndian(v, width);
      assert s[..|s| - 1] == BigEndian(v / 256, width - 1) && s[|s| - 1] == v % 256;
      assert v / 256 < Power256(width - 1) && v == v / 256 * 256 + v % 256;
      BigEndianRoundTrip(v / 256, width - 1);
    }
  }

  /** Two's complement of a 64-bit signed integer. */
  function ToUint64(t: int): nat
    requires -TWO_63 <= t < TWO_63
  {
    if t < 0 then t + TWO_64 else t
  }

  function ToInt64(u: nat): int {
    if u < TWO_63 then u else u - TWO_64
  }

  lemma TimestampRoundTrip(t: int)
    requires -TWO_63 <= t < TWO_63
    ensures ToInt64(FromBigEndian(BigEndian(ToUint64(t), 8))) == t
  {
    assert Power256(8) == TWO_64 by {
      assert Power256(2) == 0x1_0000;
      assert Power256(4) == 0x1_0000_0000;
      assert Power256(6) == 0x1_0000_0000_0000;
    }
    BigEndianRoundTrip(ToUint64(t), 8);
  }

  // ---------------------------------------------------------------- the message

  /** What a saved binary carries through the file: the update time in whole seconds. */
  datatype Fields = Fields(content: Bytes, seconds: int, etag: Bytes)

  ghost predicate Storable(f: Fields) {
    |f.content| < TWO_63 && |f.etag| < TWO_63 && -TWO_63 <= f.seconds < TWO_63
  }

  /** A length-prefixed byte string. */
  function Sized(s: Bytes): Bytes {
    Uvarint(|s|) + s
  }

  function Encode(f: Fields): Bytes
    requires -TWO_63 <= f.seconds < TWO_63
  {
    [1] + Sized(f.content) + BigEndian(ToUint64(f.seconds), 8) + Sized(f.etag)
  }

  function ReadSized(input: Bytes): Result<Read<Bytes>, Error> {
    var length := ReadUvarint(input, 0);
    if length.Err? then Err(length.error)
    else if |length.value.rest| < length.value.value then Err(EndOfInput)
    else Ok(Read(length.value.rest[..length.value.value], length.value.rest[length.value.value..]))
  }

  /** The version byte is read and not looked at; bytes after the etag are ignored. */
  function Decode(input: Bytes): Result<Fields, Error> {
    if input == [] then Err(EndOfInput) else
      var content := ReadSized(input[1..]);
      if content.Err? then Err(content.error)
      else if |content.value.rest| < 8 then Err(EndOfInput) else
        var etag := ReadSized(content.value.rest[8..]);
        if etag.Err? then Err(etag.error)
        else Ok(Fields(content.value.value, ToInt64(FromBigEndian(content.value.rest[..8])), etag.value.value))
  }

  lemma SizedRoundTrip(s: Bytes, rest: Bytes)
    requires |s| < TWO_64
    ensures ReadSized(Sized(s) + rest) == Ok(Read(s, rest))
  {
    LimitIsUint64();
    UvarintRoundTrip(|s|, 0, s + rest);
    assert Sized(s) + rest == Uvarint(|s|) + (s + rest);
    assert (s + rest)[..|s|] == s && (s + rest)[|s|..] == rest;
  }

  lemma SizedPrefixFails(s: Bytes, k: nat)
    requires |s| < TWO_64 && k < |Sized(s)|
    ensures ReadSized(Sized(s)[..k]).Err?
  {
    LimitIsUint64();
    var n := |Uvarint(|s|)|;
    if k < n {
      assert Sized(s)[..k] == Uvarint(|s|)[..k];
      UvarintPrefixFails(|s|, 0, k);
    } else {
      assert Sized(s)[..k] == Uvarint(|s|) + s[..k - n];
      UvarintRoundTrip(|s|, 0, s[..k - n]);
    }
  }

  /** Decoding what Encode wrote gives it back, whatever version byte stands in front and whatever follows. */
  lemma RoundTrip(f: Fields, version: Byte, tail: Bytes)
    requires Storable(f)
    ensures Decode([version] + Encode(f)[1..] + tail) == Ok(f)
  {
    var time := BigEndian(ToUint64(f.seconds), 8);
    var input := [version] + Encode(f)[1..] + tail;
    assert input[1..] == Sized(f.content) + (time + (Sized(f.etag) + tail));
    SizedRoundTrip(f.content, time + (Sized(f.etag) + tail));
    assert (time + (Sized(f.etag) + tail))[..8] == time;
    assert (time + (Sized(f.etag) + tail))[8..] == Sized(f.etag) + tail;
    SizedRoundTrip(f.etag, tail);
    TimestampRoundTrip(f.seconds);
  }

  /** Two different saved binaries never share an encoding. */
  lemma EncodeInjective(f: Fields, g: Fields)
    requires Storable(f) && Storable(g) && Encode(f) == Encode(g)
    ensures f == g
  {
    RoundTrip(f, 1, []);
    RoundTrip(g, 1, []);
    assert [1] + Encode(f)[1..] + [] == [1] + Encode(g)[1..] + [];
  }

  /** A file cut off anywhere is reported, never decoded into something else. */
  lemma TruncationDetected(f: Fields, k: nat)
    requires Storable(f) && k < |Encode(f)|
    ensures Decode(Encode(f)[..k]).Err?
  {
    var time := BigEndian(ToUint64(f.seconds), 8);
    var head := Sized(f.content);
    var input := Encode(f)[..k];
    if k == 0 {
    } else if k - 1 < |head| {
      assert input[1..] == head[..k - 1];
      SizedPrefixFails(f.content, k - 1);
    } else if k - 1 - |head| < 8 {
      assert input[1..] == head + time[..k - 1 - |head|];
      SizedRoundTrip(f.content, time[..k - 1 - |head|]);
    } else {
      var j := k - 9 - |head|;
      assert input[1..] == head + (time + Sized(f.etag)[..j]);
      SizedRoundTrip(f.content, time + Sized(f.etag)[..j]);
      assert (time + Sized(f.etag)[..j])[8..] == Sized(f.etag)[..j];
      SizedPrefixFails(f.etag, j);
    }
  }

  // ---------------------------------------------------------------- the object

  /** Seconds since the epoch, rounded down, of a time in nanoseconds. */
  function Unix(time: int): int { time / NANOSECONDS }

  function Zeros(n: nat): Bytes { seq(n, _ => 0) }

  class SavedBinary {
    var content: Bytes
    var lastUpdated: int
    var lastEtag: Bytes

    ghost predicate Valid()
      reads this
    {
      Storable(Fields(content, Unix(lastUpdated), lastEtag))
    }

    constructor (content: Bytes, lastUpdated: int, lastEtag: Bytes)
      ensures this.content == content && this.lastUpdated == lastUpdated && this.lastEtag == lastEtag
    {
      this.content, this.lastUpdated, this.lastEtag := content, lastUpdated, lastEtag;
    }

    method MarshalBinary() returns (data: Bytes)
      requires Valid()
      ensures data == Encode(Fields(content, Unix(lastUpdated), lastEtag))
    {
      var buffer: Bytes := [1];
      buffer := buffer + Uvarint(|content|);
      buffer := buffer + content;
      buffer := buffer + BigEndian(ToUint64(Unix(lastUpdated)), 8);
      buffer := buffer + Uvarint(|lastEtag|);
      buffer := buffer + lastEtag;
      data := buffer;
    }

    /** On an error the fields read before it keep their new values, and a content that ends early
        is left padded with zeros; the etag changes only when everything was read. */
    method UnmarshalBinary(data: Bytes) returns (result: Result<(), Error>)
      modifies this
      ensures result.Ok? <==> Decode(data).Ok?
      ensures result.Err? ==> result.error == Decode(data).error
      ensures result.Ok? ==>
              Fields(content, Unix(lastUpdated), lastEtag) == Decode(data).value && lastUpdated % NANOSECONDS == 0
      ensures result.Err? ==> lastEtag == old(lastEtag)
      ensures data == [] || ReadUvarint(data[1..], 0).Err? ==> content == old(content)
      ensures data == [] || ReadSized(data[1..]).Err? ==> lastUpdated == old(lastUpdated)
    {
      if data == [] { return Err(EndOfInput); }
      var reader := data[1..];
      var length := ReadUvarint(reader, 0);
      if length.Err? { return Err(length.error); }
      var n := length.value.value;
      reader := length.value.rest;
      if |reader| < n {
        content := reader + Zeros(n - |reader|);
        return Err(EndOfInput);
      }
      content := reader[..n];
      reader := reader[n..];
      if |reader| < 8 { return Err(EndOfInput); }
      lastUpdated := ToInt64(FromBigEndian(reader[..8])) * NANOSECONDS;
      reader := reader[8..];
      length := ReadUvarint(reader, 0);
      if length.Err? { return Err(length.error); }
      if |length.value.rest| < length.value.value { return Err(EndOfInput); }
      lastEtag := length.value.rest[..length.value.value];
      result := Ok(());
    }

    /** Writing one object and reading into another reproduces content, etag and the time to the second. */
    method Transfer(target: SavedBinary) returns (result: Result<(), Error>)
      requires Valid() && target != this
      modifies target
      ensures result.Ok?
      ensures target.content == content && target.lastEtag == lastEtag
      ensures target.lastUpdated % NANOSECONDS == 0
      ensures target.lastUpdated <= lastUpdated < target.lastUpdated + NANOSECONDS
    {
      var data := MarshalBinary();
      RoundTrip(Fields(content, Unix(lastUpdated), lastEtag), 1, []);
      assert [1] + data[1..] + [] == data;
      result := target.UnmarshalBinary(data);
    }
  }
}
