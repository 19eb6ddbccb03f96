/** One column of the world: flat arrays of identifiers, packed half bytes of metadata, and a height
    map that is kept up to date block by block. */
module Chunks {
  import opened Binary

  const HEIGHT := 128
  const BLOCKS_SIZE := 32768
  const NIBBLE_SIZE := 16384
  const HEIGHT_MAP_SIZE := 256

  datatype Spot = Spot(x: int, y: int, z: int)

  datatype Block = Block(id: byte, meta: int)

  predicate InChunk(s: Spot) { 0 <= s.x < 16 && 0 <= s.z < 16 && 0 <= s.y < HEIGHT }

  /** Four bits of x, four of z, seven of y. */
  function Index(s: Spot): (i: nat)
    requires InChunk(s)
    ensures i < BLOCKS_SIZE
  {
    s.x * 2048 + s.z * 128 + s.y
  }

  lemma IndexDistinct(s: Spot, t: Spot)
    requires InChunk(s) && InChunk(t)
    ensures Index(s) == Index(t) <==> s == t
  {
  }

  /** Every cell of the array is the place of some block. */
  lemma {:induction false} IndexOnto(i: nat) returns (s: Spot)
    requires i < BLOCKS_SIZE
    ensures InChunk(s) && Index(s) == i
  {
    s := Spot(i / 2048, i % 128, (i / 128) % 16);
  }

  function HeightIndex(x: int, z: int): (i: nat)
    requires 0 <= x < 16 && 0 <= z < 16
    ensures i < HEIGHT_MAP_SIZE
  {
    z * 16 + x
  }

  // ---------- half bytes ----------

  function HalfOf(b: byte, odd: bool): int { if odd then b / 16 else b % 16 }

  function WithHalf(b: byte, odd: bool, half: int): byte
    requires 0 <= half < 16
  {
    if odd then b % 16 + half * 16 else b / 16 * 16 + half
  }

  lemma HalvesApart(b: byte, odd: bool, half: int)
    requires 0 <= half < 16
    ensures HalfOf(WithHalf(b, odd, half), odd) == half
    ensures HalfOf(WithHalf(b, odd, half), !odd) == HalfOf(b, !odd)
  {
  }

  function Nibble(bytes: seq<byte>, index: int): int {
    var i := index / 2;
    if i < 0 || i >= |bytes| then 0 else HalfOf(bytes[i], index % 2 == 1)
  }

  /** The half byte is replaced, its pair and all others are left alone; outside the array nothing
      happens. */
  method SetNibble(arr: array<byte>, index: int, nibble: byte)
    modifies arr
    ensures 0 <= index < 2 * arr.Length ==> Nibble(arr[..], index) == nibble % 16
    ensures forall j | j != index :: Nibble(arr[..], j) == Nibble(old(arr[..]), j)
    ensures !(0 <= index < 2 * arr.Length) ==> arr[..] == old(arr[..])
  {
    var i := index / 2;
    if i < 0 || i >= arr.Length { return; }
    HalvesApart(arr[i], index % 2 == 1, nibble % 16);
    arr[i] := WithHalf(arr[i], index % 2 == 1, nibble % 16);
    forall j | j != index ensures Nibble(arr[..], j) == Nibble(old(arr[..]), j) {
      assert j / 2 == i ==> (j % 2 == 1) == !(index % 2 == 1);
    }
  }

  // ---------- the height of a column ----------

  function IdAt(ids: seq<byte>, x: int, y: int, z: int): byte
    requires |ids| == BLOCKS_SIZE && InChunk(Spot(x, y, z))
  {
    ids[Index(Spot(x, y, z))]
  }

  /** One above the highest block that is not air, 0 for a column of air. */
  ghost predicate IsHeight(ids: seq<byte>, x: int, z: int, h: int)
    requires |ids| == BLOCKS_SIZE && 0 <= x < 16 && 0 <= z < 16
  {
    && 0 <= h <= HEIGHT
    && (h > 0 ==> IdAt(ids, x, h - 1, z) != 0)
    && forall y | h <= y < HEIGHT :: IdAt(ids, x, y, z) == 0
  }

  lemma HeightUnique(ids: seq<byte>, x: int, z: int, h: int, k: int)
    requires |ids| == BLOCKS_SIZE && 0 <= x < 16 && 0 <= z < 16
    requires IsHeight(ids, x, z, h) && IsHeight(ids, x, z, k)
    ensures h == k
  {
  }

  /** Air from the level above `y` up. */
  ghost predicate AirAbove(ids: seq<byte>, x: int, y: int, z: int)
    requires |ids| == BLOCKS_SIZE && 0 <= x < 16 && 0 <= z < 16 && -1 <= y < HEIGHT
  {
    forall k | y < k < HEIGHT :: IdAt(ids, x, k, z) == 0
  }

  lemma AirDown(ids: seq<byte>, x: int, y: int, z: int)
    requires |ids| == BLOCKS_SIZE && 0 <= x < 16 && 0 <= z < 16 && 0 <= y < HEIGHT && AirAbove(ids, x, y, z)
    ensures if IdAt(ids, x, y, z) == 0 then AirAbove(ids, x, y - 1, z) else IsHeight(ids, x, z, y + 1)
  {
  }

  ghost predicate HeightsRight(ids: seq<byte>, heights: seq<byte>)
    requires |ids| == BLOCKS_SIZE && |heights| == HEIGHT_MAP_SIZE
  {
    forall x, z | 0 <= x < 16 && 0 <= z < 16 :: IsHeight(ids, x, z, heights[HeightIndex(x, z)])
  }

  // ---------- the plain map ----------

  function Spots(): set<Spot> {
    set x, y, z | 0 <= x < 16 && 0 <= y < HEIGHT && 0 <= z < 16 :: Spot(x, y, z)
  }

  type Blocks = map<Spot, Block>

  function Written(m: Blocks, s: Spot, id: byte, meta: byte): Blocks {
    if InChunk(s) then m[s := Block(id, meta % 16)] else m
  }

  datatype Write = Write(spot: Spot, id: byte, meta: byte)

  function AllWritten(m: Blocks, ws: seq<Write>): Blocks {
    if ws == [] then m
    else
      var last := ws[|ws| - 1];
      Written(AllWritten(m, ws[..|ws| - 1]), last.spot, last.id, last.meta)
  }

  /** After any run of writes a place inside the chunk, 16 by 128 by 16 cells, holds the identifier and
      the low half byte of the metadata that the last write to it gave, and any other what it held. */
  lemma {:induction false} LastWriteCounts(m: Blocks, ws: seq<Write>, s: Spot)
    ensures var r, inside := AllWritten(m, ws), 0 <= s.x < 16 && 0 <= s.y < 128 && 0 <= s.z < 16;
            && (forall i | 0 <= i < |ws| && ws[i].spot == s && inside && (forall j | i < j < |ws| :: ws[j].spot != s) ::
                  s in r && r[s] == Block(ws[i].id, ws[i].meta % 16))
            && (!inside || (forall i | 0 <= i < |ws| :: ws[i].spot != s) ==>
                  (s in r <==> s in m) && (s in m ==> r[s] == m[s]))
  {
    if ws != [] { LastWriteCounts(m, ws[..|ws| - 1], s); }
  }

  class Chunk {
    const blocks: array<byte>
    const data: array<byte>
    const heightMap: array<byte>
    var dirty: bool

    ghost predicate Valid()
      reads this, blocks, data, heightMap
    {
      && blocks.Length == BLOCKS_SIZE && data.Length == NIBBLE_SIZE && heightMap.Length == HEIGHT_MAP_SIZE
      && blocks != data && blocks != heightMap && data != heightMap
    }

    /** What the chunk stores, as a map from places to blocks. */
    ghost function View(): Blocks
      reads this, blocks, data, heightMap
      requires Valid()
    {
      map s | s in Spots() :: Block(blocks[Index(s)], Nibble(data[..], Index(s)))
    }

    ghost predicate HeightsKept()
      reads this, blocks, data, heightMap
      requires Valid()
    {
      HeightsRight(blocks[..], heightMap[..])
    }

    constructor ()
      ensures Valid() && HeightsKept() && !dirty
      ensures fresh(blocks) && fresh(data) && fresh(heightMap)
      ensures forall s | s in Spots() :: View()[s] == Block(0, 0)
    {
      blocks := new byte[BLOCKS_SIZE](_ => 0);
      data := new byte[NIBBLE_SIZE](_ => 0);
      heightMap := new byte[HEIGHT_MAP_SIZE](_ => 0);
      dirty := false;
    }

    method GetBlockId(x: int, y: int, z: int) returns (id: byte)
      requires Valid()
      ensures id == if Spot(x, y, z) in View() then View()[Spot(x, y, z)].id else 0
    {
      if x < 0 || x >= 16 || z < 0 || z >= 16 || y < 0 || y >= HEIGHT { return 0; }
      id := blocks[Index(Spot(x, y, z))];
    }

    method GetBlockMeta(x: int, y: int, z: int) returns (meta: int)
      requires Valid()
      ensures meta == if Spot(x, y, z) in View() then View()[Spot(x, y, z)].meta else 0
    {
      if x < 0 || x >= 16 || z < 0 || z >= 16 || y < 0 || y >= HEIGHT { return 0; }
      meta := Nibble(data[..], Index(Spot(x, y, z)));
    }

    method ColumnHeight(x: int, z: int) returns (h: byte)
      requires Valid() && 0 <= x < 16 && 0 <= z < 16
      ensures IsHeight(blocks[..], x, z, h)
    {
      ghost var ids := blocks[..];
      var y := HEIGHT - 1;
      while y >= 0
        invariant -1 <= y < HEIGHT && AirAbove(ids, x, y, z)
      {
        var i := Index(Spot(x, y, z));
        assert blocks[i] == ids[i] == IdAt(ids, x, y, z);
        AirDown(ids, x, y, z);
        if blocks[i] != 0 { return y + 1; }
        y := y - 1;
      }
      h := 0;
    }

    /** A write changes one place of the map, and the height map follows. */
    method SetBlock(s: Spot, id: byte, meta: byte)
      requires Valid()
      modifies this`dirty, blocks, data, heightMap
      ensures Valid() && View() == Written(old(View()), s, id, meta)
      ensures old(HeightsKept()) ==> HeightsKept()
      ensures dirty <==> old(dirty) || old(View()) != View()
    {
      if !InChunk(s) { return; }
      var i := Index(s);
      if blocks[i] == id && Nibble(data[..], i) == meta % 16 {
        assert View() == old(View());
        return;
      }
      blocks[i] := id;
      SetNibble(data, i, meta);
      dirty := true;
      assert View() == Written(old(View()), s, id, meta) by {
        forall t | t in Spots() && t != s ensures View()[t] == old(View())[t] {
          IndexDistinct(s, t);
        }
      }
      assert View()[s] != old(View())[s];
      UpdateHeight(s, id, old(blocks[..]));
    }

    /** The height map after the block at `s` became `id`. */
    method UpdateHeight(s: Spot, id: byte, ghost before: seq<byte>)
      requires Valid() && InChunk(s)
      requires |before| == BLOCKS_SIZE && blocks[..] == before[Index(s) := id]
      modifies heightMap
      ensures HeightsRight(before, old(heightMap[..])) ==> HeightsKept()
    {
      var hi := HeightIndex(s.x, s.z);
      if id != 0 {
        if heightMap[hi] < s.y + 1 { heightMap[hi] := s.y + 1; }
      } else if heightMap[hi] == s.y + 1 {
        var h := ColumnHeight(s.x, s.z);
        heightMap[hi] := h;
      }
      if HeightsRight(before, old(heightMap[..])) {
        forall x, z | 0 <= x < 16 && 0 <= z < 16 ensures IsHeight(blocks[..], x, z, heightMap[HeightIndex(x, z)]) {
          OtherColumns(before, s, id, x, z, old(heightMap[HeightIndex(x, z)]));
        }
      }
    }

    method RecomputeHeightMap()
      requires Valid()
      modifies heightMap
      ensures HeightsKept()
    {
      for z := 0 to 16
        invariant forall x, k | 0 <= x < 16 && 0 <= k < z :: IsHeight(blocks[..], x, k, heightMap[HeightIndex(x, k)])
      {
        for x := 0 to 16
          invariant forall j, k | 0 <= j < 16 && 0 <= k < z :: IsHeight(blocks[..], j, k, heightMap[HeightIndex(j, k)])
          invariant forall j | 0 <= j < x :: IsHeight(blocks[..], j, z, heightMap[HeightIndex(j, z)])
        {
          var h := ColumnHeight(x, z);
          heightMap[HeightIndex(x, z)] := h;
        }
      }
    }

    /** Any run of writes: reads agree with the plain map, and a height map that was right stays the
        one a full recompute would give. */
    method SetBlocks(ws: seq<Write>)
      requires Valid()
      modifies this`dirty, blocks, data, heightMap
      ensures Valid() && View() == AllWritten(old(View()), ws)
      ensures old(HeightsKept()) ==> HeightsKept()
    {
      for i := 0 to |ws|
        invariant Valid() && View() == AllWritten(old(View()), ws[..i])
        invariant old(HeightsKept()) ==> HeightsKept()
      {
        assert ws[..i + 1][..i] == ws[..i];
        SetBlock(ws[i].spot, ws[i].id, ws[i].meta);
      }
      assert ws[..|ws|] == ws;
    }
  }

  /** What a write leaves at each place. */
  lemma IdAfter(before: seq<byte>, s: Spot, id: byte, x: int, y: int, z: int)
    requires |before| == BLOCKS_SIZE && InChunk(s) && InChunk(Spot(x, y, z))
    ensures IdAt(before[Index(s) := id], x, y, z) == if Spot(x, y, z) == s then id else IdAt(before, x, y, z)
  {
    IndexDistinct(s, Spot(x, y, z));
  }

  /** How one write moves the height of a column. */
  lemma OtherColumns(before: seq<byte>, s: Spot, id: byte, x: int, z: int, h: int)
    requires |before| == BLOCKS_SIZE && InChunk(s) && 0 <= x < 16 && 0 <= z < 16
    requires IsHeight(before, x, z, h)
    ensures var after := before[Index(s) := id];
            && (x != s.x || z != s.z ==> IsHeight(after, x, z, h))
            && (x == s.x && z == s.z && id != 0 ==> IsHeight(after, x, z, if h < s.y + 1 then s.y + 1 else h))
            && (x == s.x && z == s.z && id == 0 && h != s.y + 1 ==> IsHeight(after, x, z, h))
  {
    var after := before[Index(s) := id];
    forall y | 0 <= y < HEIGHT
      ensures IdAt(after, x, y, z) == if Spot(x, y, z) == s then id else IdAt(before, x, y, z)
    {
      IdAfter(before, s, id, x, y, z);
    }
    HeightAfter(before, after, s, id, x, z, h);
  }

  lemma HeightAfter(before: seq<byte>, after: seq<byte>, s: Spot, id: byte, x: int, z: int, h: int)
    requires |before| == |after| == BLOCKS_SIZE && InChunk(s) && 0 <= x < 16 && 0 <= z < 16
    requires IsHeight(before, x, z, h)
    requires forall y | 0 <= y < HEIGHT ::
               IdAt(after, x, y, z) == if Spot(x, y, z) == s then id else IdAt(before, x, y, z)
    ensures x != s.x || z != s.z ==> IsHeight(after, x, z, h)
    ensures x == s.x && z == s.z && id != 0 ==> IsHeight(after, x, z, if h < s.y + 1 then s.y + 1 else h)
    ensures x == s.x && z == s.z && id == 0 && h != s.y + 1 ==> IsHeight(after, x, z, h)
  {
  }

  /** Two height maps that are right for the same blocks are the same: the one kept write by write is
      the one a full recompute gives. */
  lemma HeightMapUnique(ids: seq<byte>, a: seq<byte>, b: seq<byte>)
    requires |ids| == BLOCKS_SIZE && |a| == |b| == HEIGHT_MAP_SIZE
    requires HeightsRight(ids, a) && HeightsRight(ids, b)
    ensures a == b
  {
    forall i | 0 <= i < HEIGHT_MAP_SIZE ensures a[i] == b[i] {
      var x, z := i % 16, i / 16;
      assert HeightIndex(x, z) == i;
      HeightUnique(ids, x, z, a[i], b[i]);
    }
  }
}
