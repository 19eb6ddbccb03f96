/** Fixed-width integers on the wire and the cursor the codecs read and write through. */
module Binary {
  import opened Collections

  type byte = x: int | 0 <= x < 256

  const U16 := 0x1_0000
  const U24 := 0x100_0000
  const U32 := 0x1_0000_0000

  // ---------- value functions (namespace Binary) ----------

  // The low byte of a word and the rest of it, `v & 0xff` and `v >> 8`. They are written as
  // counting recursions, so that the solver unfolds them only where a proof asks for it.

  function Low(v: nat): byte {
    if v < 0x100 then v else Low(v - 0x100)
  }

  function High(v: nat): nat {
    if v < 0x100 then 0 else 1 + High(v - 0x100)
  }

  lemma {:induction false} LowHigh(v: nat)
    ensures Low(v) == v % 0x100 && High(v) == v / 0x100
  {
    if v >= 0x100 { LowHigh(v - 0x100); }
  }

  function WriteShort(v: nat): (s: seq<byte>)
    ensures |s| == 2
  {
    [Low(High(v)), Low(v)]
  }

  function ReadShort(s: seq<byte>): (v: nat)
    requires |s| >= 2
    ensures v < U16
  {
    s[0] as int * 0x100 + s[1] as int
  }

  function WriteLTriad(v: nat): (s: seq<byte>)
    ensures |s| == 3
  {
    [Low(v), Low(High(v)), Low(High(High(v)))]
  }

  function ReadLTriad(s: seq<byte>): (v: nat)
    requires |s| >= 3
    ensures v < U24
  {
    s[0] as int + s[1] as int * 0x100 + s[2] as int * 0x1_0000
  }

  /** Two's complement, big endian: the cast to an unsigned word is a reduction modulo 2^32. */
  function WriteInt(v: int): (s: seq<byte>)
    ensures |s| == 4
  {
    WriteWord(ToUnsigned(v))
  }

  function WriteWord(u: nat): (s: seq<byte>)
    ensures |s| == 4
  {
    [Low(High(High(High(u)))), Low(High(High(u))), Low(High(u)), Low(u)]
  }

  function Word(s: seq<byte>): (u: nat)
    requires |s| >= 4
    ensures u < U32
  {
    s[0] as int * 0x100_0000 + s[1] as int * 0x1_0000 + s[2] as int * 0x100 + s[3] as int
  }

  function ReadInt(s: seq<byte>): (v: int)
    requires |s| >= 4
    ensures -0x8000_0000 <= v < 0x8000_0000
  {
    ToInt32(Word(s))
  }

  function ToUnsigned(v: int): (u: nat)
    ensures u < U32
  {
    v % U32
  }

  /** The signed 32-bit value with the same low 32 bits. */
  function ToInt32(v: int): (r: int)
    ensures -0x8000_0000 <= r < 0x8000_0000
    ensures -0x8000_0000 <= v < 0x8000_0000 ==> r == v
  {
    var u := ToUnsigned(v);
    if u < 0x8000_0000 then u else u - U32
  }

  /** Eight bytes, big endian, as the unsigned word the source keeps in an int64. */
  function ReadLong(s: seq<byte>): (v: nat)
    requires |s| >= 8
  {
    Word(s[..4]) * U32 + Word(s[4..8])
  }

  function WriteLong(v: nat): (s: seq<byte>)
    ensures |s| == 8
  {
    WriteInt(v / U32) + WriteInt(v)
  }

  // ---------- what a reader sees of what a writer wrote ----------

  /** A write keeps the low bits of the value and nothing else. */
  lemma ShortRoundTrip(v: nat)
    ensures ReadShort(WriteShort(v)) == v % U16
  {
    LowHigh(v);
    LowHigh(High(v));
    var r := High(v) / 0x100;
    assert v == r * 0x1_0000 + Low(High(v)) as int * 0x100 + Low(v) as int;
  }

  lemma LTriadRoundTrip(v: nat)
    ensures ReadLTriad(WriteLTriad(v)) == v % U24
  {
    LowHigh(v);
    LowHigh(High(v));
    LowHigh(High(High(v)));
    var t := High(High(v)) / 0x100;
    assert v == t * 0x100_0000 + ReadLTriad(WriteLTriad(v));
  }

  lemma WordRoundTrip(u: nat)
    ensures Word(WriteWord(u)) == u % U32
  {
    LowHigh(u);
    LowHigh(High(u));
    LowHigh(High(High(u)));
    LowHigh(High(High(High(u))));
    var t := High(High(High(u))) / 0x100;
    assert u == t * U32 + Word(WriteWord(u));
  }

  lemma IntRoundTrip(v: int)
    ensures ReadInt(WriteInt(v)) == ToInt32(v)
  {
    var u := ToUnsigned(v);
    WordRoundTrip(u);
    assert ToUnsigned(u) == u;
  }

  // ---------- class BinaryStream ----------

  class BinaryStream {
    var buffer: seq<byte>
    var offset: nat

    constructor (bytes: seq<byte>)
      ensures buffer == bytes && offset == 0
    {
      buffer, offset := bytes, 0;
    }

    predicate Feof()
      reads this
    {
      offset >= |buffer|
    }

    method Put(data: seq<byte>)
      modifies this`buffer
      ensures buffer == old(buffer) + data
    {
      buffer := buffer + data;
    }

    /** `get`: None stands for the thrown StreamError, which leaves the cursor where it was. */
    method Get(len: nat) returns (r: Option<seq<byte>>)
      modifies this`offset
      ensures r.Some? <==> old(offset) + len <= |buffer|
      ensures r.Some? ==> offset == old(offset) + len && r.value == buffer[old(offset)..offset]
      ensures r.None? ==> offset == old(offset)
    {
      if offset + len > |buffer| { return None; }
      r := Some(buffer[offset..offset + len]);
      offset := offset + len;
    }
  }
}
