/** The radio's memory map. The real constants live in a device header that
    is not part of this model, so they are parameters here, together with the
    assumptions the encoder and the image writer rely on: a field record of at
    least 14 bytes, and eight pairwise disjoint areas that all lie inside the
    25,600-byte image. */
module Layout {

  /** Size of a memory image as read from the radio. */
  const ImageSize: nat := 25600

  /** The memory-map constants: record widths, the tag fill byte, region
      capacities, base offsets, and the ordered names of the program channels
      (their count is the named region's capacity). */
  datatype MemoryMap = MemoryMap(
    channelSize: nat,
    tagSize: nat,
    tagFill: bv8,
    nChannels: nat,
    programNames: seq<string>,
    topOffset: nat, topTagOffset: nat,
    botOffset: nat, botTagOffset: nat,
    programOffset: nat, programTagOffset: nat,
    homeOffset: nat, homeTagOffset: nat)

  /** A contiguous byte range `[start, start + len)` of the image. */
  datatype Area = Area(start: nat, len: nat) {
    predicate Contains(i: int) { start <= i < start + len }
    function End(): nat { start + len }
  }

  predicate Disjoint(a: Area, b: Area) {
    a.End() <= b.start || b.End() <= a.start
  }

  /** The eight areas of the image: field and tag arrays of the top bank,
      the bottom bank, the named program channels and the home channel. */
  function Areas(mm: MemoryMap): (areas: seq<Area>)
    ensures |areas| == 8
  {
    var np := |mm.programNames|;
    [ Area(mm.topOffset, mm.nChannels * mm.channelSize),
      Area(mm.topTagOffset, mm.nChannels * mm.tagSize),
      Area(mm.botOffset, mm.nChannels * mm.channelSize),
      Area(mm.botTagOffset, mm.nChannels * mm.tagSize),
      Area(mm.programOffset, np * mm.channelSize),
      Area(mm.programTagOffset, np * mm.tagSize),
      Area(mm.homeOffset, mm.channelSize),
      Area(mm.homeTagOffset, mm.tagSize) ]
  }

  /** Number of bytes the record packer writes into a channel record; the
      rest of the record stays zero. */
  const PackedBytes: nat := 14

  /** The assumptions on the memory-map constants. */
  predicate Valid(mm: MemoryMap) {
    && mm.channelSize >= PackedBytes
    && (forall k :: 0 <= k < 8 ==> Areas(mm)[k].End() <= ImageSize)
    && (forall k, l :: 0 <= k < l < 8 ==> Disjoint(Areas(mm)[k], Areas(mm)[l]))
  }

  /** Where one channel's records go: a slot of the top or bottom bank (the
      0-based index), an entry of the named program region, or the single
      home slot. */
  datatype Target =
    | TopSlot(index: nat)
    | BottomSlot(index: nat)
    | ProgramSlot(index: nat)
    | HomeSlot

  /** The index the target's region has in `Areas`, divided by two. */
  function RegionOf(t: Target): nat {
    match t
    case TopSlot(_) => 0
    case BottomSlot(_) => 1
    case ProgramSlot(_) => 2
    case HomeSlot => 3
  }

  function IndexOf(t: Target): nat {
    match t
    case TopSlot(i) => i
    case BottomSlot(i) => i
    case ProgramSlot(i) => i
    case HomeSlot => 0
  }

  /** The target names a slot its region has. */
  predicate InRange(mm: MemoryMap, t: Target) {
    match t
    case TopSlot(i) => i < mm.nChannels
    case BottomSlot(i) => i < mm.nChannels
    case ProgramSlot(i) => i < |mm.programNames|
    case HomeSlot => true
  }

  /** The byte ranges one channel occupies: its field record and its tag
      record. */
  datatype Placement = Placement(fields: Area, tag: Area)

  /** Base offset plus index times record width, in each region. */
  function Locate(mm: MemoryMap, t: Target): (p: Placement)
    ensures p.fields.len == mm.channelSize && p.tag.len == mm.tagSize
  {
    var i := IndexOf(t);
    var (f, s) := match t
      case TopSlot(_) => (mm.topOffset, mm.topTagOffset)
      case BottomSlot(_) => (mm.botOffset, mm.botTagOffset)
      case ProgramSlot(_) => (mm.programOffset, mm.programTagOffset)
      case HomeSlot => (mm.homeOffset, mm.homeTagOffset);
    Placement(Area(f + i * mm.channelSize, mm.channelSize), Area(s + i * mm.tagSize, mm.tagSize))
  }

  /** Slot `i` of an array of records of width `w` based at `base` lies inside
      the array when `i` is below its capacity. */
  lemma SlotInside(base: nat, w: nat, i: nat, n: nat)
    requires i < n
    ensures base + i * w + w <= base + n * w
  {
    var k: nat := n - (i + 1);
    Distributes(i, 1, w);
    Distributes(i + 1, k, w);
    NonNegativeProduct(k, w);
  }

  lemma Distributes(a: int, b: int, w: int)
    ensures (a + b) * w == a * w + b * w
  {
  }

  lemma NonNegativeProduct(k: nat, w: nat)
    ensures k * w >= 0
  {
  }

  /** Distinct slots of one array of records do not overlap. */
  lemma SlotsApart(base: nat, w: nat, i: nat, j: nat)
    requires i < j
    ensures base + i * w + w <= base + j * w
  {
    SlotInside(base, w, i, j);
  }

  /** A target in range lies in its region's two areas. */
  lemma LocateInside(mm: MemoryMap, t: Target)
    requires InRange(mm, t)
    ensures var p := Locate(mm, t); var k := 2 * RegionOf(t);
      && Areas(mm)[k].start <= p.fields.start && p.fields.End() <= Areas(mm)[k].End()
      && Areas(mm)[k + 1].start <= p.tag.start && p.tag.End() <= Areas(mm)[k + 1].End()
  {
    var k := 2 * RegionOf(t);
    var n := RegionArrays(mm, t);
    var p := Locate(mm, t);
    SlotOfArray(Areas(mm)[k], p.fields, mm.channelSize, IndexOf(t), n);
    SlotOfArray(Areas(mm)[k + 1], p.tag, mm.tagSize, IndexOf(t), n);
  }

  /** Record `i` of an array of `n` records of width `w` lies inside the
      array. */
  lemma SlotOfArray(a: Area, r: Area, w: nat, i: nat, n: nat)
    requires i < n && a.len == n * w
    requires r.start == a.start + i * w && r.len == w
    ensures a.start <= r.start && r.End() <= a.End()
  {
    SlotInside(a.start, w, i, n);
  }

  /** A target's records are slot `IndexOf(t)` of its region's field and
      tag arrays, whose capacity is `n`. */
  lemma RegionArrays(mm: MemoryMap, t: Target) returns (n: nat)
    requires InRange(mm, t)
    ensures IndexOf(t) < n
    ensures var p := Locate(mm, t); var k := 2 * RegionOf(t);
      && p.fields.start == Areas(mm)[k].start + IndexOf(t) * mm.channelSize
      && p.tag.start == Areas(mm)[k + 1].start + IndexOf(t) * mm.tagSize
      && Areas(mm)[k].len == n * mm.channelSize
      && Areas(mm)[k + 1].len == n * mm.tagSize
  {
    match t
    case TopSlot(_) => n := mm.nChannels;
    case BottomSlot(_) => n := mm.nChannels;
    case ProgramSlot(_) => n := |mm.programNames|;
    case HomeSlot => n := 1;
  }

  /** Every in-range target of a valid memory map has both its records inside
      the image, and its field record does not overlap its tag record. */
  lemma PlacementFits(mm: MemoryMap, t: Target)
    requires Valid(mm) && InRange(mm, t)
    ensures Locate(mm, t).fields.End() <= ImageSize
    ensures Locate(mm, t).tag.End() <= ImageSize
    ensures Disjoint(Locate(mm, t).fields, Locate(mm, t).tag)
  {
    LocateInside(mm, t);
    var k := 2 * RegionOf(t);
    assert Areas(mm)[k].End() <= ImageSize && Areas(mm)[k + 1].End() <= ImageSize;
    assert Disjoint(Areas(mm)[k], Areas(mm)[k + 1]);
  }

  /** Distinct in-range targets occupy pairwise disjoint byte ranges: no two
      channel slots of the image share a byte. */
  lemma TargetsDisjoint(mm: MemoryMap, t: Target, u: Target)
    requires Valid(mm) && InRange(mm, t) && InRange(mm, u) && t != u
    ensures Disjoint(Locate(mm, t).fields, Locate(mm, u).fields)
    ensures Disjoint(Locate(mm, t).tag, Locate(mm, u).tag)
    ensures Disjoint(Locate(mm, t).fields, Locate(mm, u).tag)
    ensures Disjoint(Locate(mm, t).tag, Locate(mm, u).fields)
  {
    LocateInside(mm, t);
    LocateInside(mm, u);
    var k, l := 2 * RegionOf(t), 2 * RegionOf(u);
    if k == l {
      assert Disjoint(Areas(mm)[k], Areas(mm)[k + 1]);
      var i, j := IndexOf(t), IndexOf(u);
      assert i != j;
      var base, tbase := Areas(mm)[k].start, Areas(mm)[k + 1].start;
      if i < j {
        SlotsApart(base, mm.channelSize, i, j);
        SlotsApart(tbase, mm.tagSize, i, j);
      } else {
        SlotsApart(base, mm.channelSize, j, i);
        SlotsApart(tbase, mm.tagSize, j, i);
      }
    } else {
      var a, b := Areas(mm)[k], Areas(mm)[l];
      var a', b' := Areas(mm)[k + 1], Areas(mm)[l + 1];
      if k < l {
        assert Disjoint(a, b) && Disjoint(a', b') && Disjoint(a, b') && Disjoint(a', b);
      } else {
        assert Disjoint(b, a) && Disjoint(b', a') && Disjoint(b', a) && Disjoint(b, a');
      }
    }
  }
}
