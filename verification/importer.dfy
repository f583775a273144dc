/** The document-level import: each parsed channel is given a slot (its own,
    or the next automatic one), resolved to one of the four regions of the
    memory map, packed, and its two records spliced into the image. A bank
    channel whose slot is past its bank's capacity is skipped. */
module Importer {
  import opened Bytes
  import opened Channels
  import opened Layout
  import opened Encoder
  import opened Parser

  /** The first slot handed to a channel that has none. */
  const FirstAutoSlot: nat := 101

  /** Index of the first program-channel name equal to `name`, compared
      exactly (case matters). */
  function ProgramIndex(names: seq<string>, name: string, from: nat): (r: Option<nat>)
    decreases |names| - from
    ensures r.Some? ==>
      && from <= r.value < |names|
      && names[r.value] == name
      && forall j :: from <= j < r.value ==> names[j] != name
    ensures r.None? ==> forall j :: from <= j < |names| ==> names[j] != name
  {
    if from >= |names| then None
    else if names[from] == name then Some(from)
    else ProgramIndex(names, name, from + 1)
  }

  /** Where a channel goes (`None`: skipped) and the automatic-slot counter
      after it. */
  datatype Resolution = Resolution(target: Option<Target>, next: nat)

  /** The slot a channel uses: its own, or the counter's current value. An
      explicit slot is never overridden, and with the counter at 1 or more
      the slot is never 0, so `slot - 1` is a 0-based index. */
  function SlotOf(c: Channel, counter: nat): (r: nat)
    ensures c.slot != 0 ==> r == c.slot
    ensures counter >= 1 ==> r >= 1
  {
    if c.slot != 0 then c.slot else counter
  }

  /** Where a channel goes. A named channel goes to the program slot of its
      name, or to the home slot. Any other channel goes to its slot in the
      top bank when `bank < 2` and in the bottom bank otherwise, unless the
      slot is past the bank's capacity. */
  function Resolve(mm: MemoryMap, c: Channel, counter: nat): (r: Resolution)
    requires counter >= 1
    ensures r.target.Some? ==> InRange(mm, r.target.value)
    ensures r.next == counter + (if c.slot == 0 then 1 else 0)
    ensures |c.memname| > 0 ==>
      && r.target.Some?
      && (r.target.value.ProgramSlot? || r.target.value == HomeSlot)
      && (r.target.value.ProgramSlot? ==> mm.programNames[r.target.value.index] == c.memname)
      && (r.target.value == HomeSlot <==> c.memname !in mm.programNames)
    ensures |c.memname| == 0 ==>
      var index := SlotOf(c, counter) - 1;
      r.target == (if index >= mm.nChannels then None
                   else if c.bank < 2 then Some(TopSlot(index))
                   else Some(BottomSlot(index)))
  {
    var index := SlotOf(c, counter) - 1;
    var next := if c.slot != 0 then counter else counter + 1;
    var target :=
      if |c.memname| > 0 then
        match ProgramIndex(mm.programNames, c.memname, 0)
        case Some(i) => Some(ProgramSlot(i))
        case None => Some(HomeSlot)
      else if index >= mm.nChannels then None
      else if c.bank < 2 then Some(TopSlot(index))
      else Some(BottomSlot(index));
    Resolution(target, next)
  }

  /** The image with both records of one slot overwritten. */
  function Place(mm: MemoryMap, image: seq<bv8>, t: Target, recs: Records): (r: seq<bv8>)
    requires Valid(mm) && InRange(mm, t) && |image| == ImageSize
    requires |recs.fields| == mm.channelSize && |recs.tag| == mm.tagSize
    ensures |r| == ImageSize
  {
    PlacementFits(mm, t);
    var p := Locate(mm, t);
    Splice(Splice(image, p.fields.start, recs.fields), p.tag.start, recs.tag)
  }

  /** The image being written and the automatic-slot counter. */
  datatype State = State(image: seq<bv8>, counter: nat)

  predicate Ready(mm: MemoryMap, st: State) {
    Valid(mm) && |st.image| == ImageSize && st.counter >= 1
  }

  /** One channel imported. */
  function ImportChannel(mm: MemoryMap, conv: string -> seq<bv8>, st: State, c: Channel): (r: State)
    requires Ready(mm, st)
    ensures Ready(mm, r)
  {
    var res := Resolve(mm, c, st.counter);
    match res.target
    case None => State(st.image, res.next)
    case Some(t) => State(Place(mm, st.image, t, EncodeChannel(mm, conv, Some(c))), res.next)
  }

  /** Channels imported in document order. */
  function ImportAll(mm: MemoryMap, conv: string -> seq<bv8>, st: State, cs: seq<Channel>): (r: State)
    requires Ready(mm, st)
    ensures Ready(mm, r)
    decreases |cs|
  {
    if |cs| == 0 then st else ImportAll(mm, conv, ImportChannel(mm, conv, st, cs[0]), cs[1..])
  }

  predicate AllParsable(nodes: seq<ChannelNode>) {
    forall i :: 0 <= i < |nodes| ==> AllTextPresent(nodes[i].children)
  }

  function ParseAll(t: Tables, tagSize: nat, nodes: seq<ChannelNode>): (cs: seq<Channel>)
    requires AllParsable(nodes)
    ensures |cs| == |nodes|
    ensures forall i :: 0 <= i < |nodes| ==> cs[i] == ParseChannel(t, tagSize, nodes[i])
  {
    seq(|nodes|, i requires 0 <= i < |nodes| => ParseChannel(t, tagSize, nodes[i]))
  }

  /** The whole document: every channel element parsed and imported into a
      25,600-byte image, the counter starting at 101. Only the records of the
      slots the channels resolve to can change; in particular nothing outside
      the channel areas does. */
  function ProcessDoc(mm: MemoryMap, t: Tables, conv: string -> seq<bv8>, image: seq<bv8>, nodes: seq<ChannelNode>): (r: seq<bv8>)
    requires Valid(mm) && |image| == ImageSize && AllParsable(nodes)
    ensures |r| == ImageSize
    ensures forall i :: 0 <= i < ImageSize && !Touched(mm, Written(mm, FirstAutoSlot, ParseAll(t, mm.tagSize, nodes)), i) ==>
                          r[i] == image[i]
    ensures forall i :: 0 <= i < ImageSize && Unmapped(mm, i) ==> r[i] == image[i]
  {
    var st := State(image, FirstAutoSlot);
    var cs := ParseAll(t, mm.tagSize, nodes);
    assert forall i :: 0 <= i < ImageSize && !Touched(mm, Written(mm, FirstAutoSlot, cs), i) ==>
                         ImportAll(mm, conv, st, cs).image[i] == image[i] by {
      forall i | 0 <= i < ImageSize && !Touched(mm, Written(mm, FirstAutoSlot, cs), i)
        ensures ImportAll(mm, conv, st, cs).image[i] == image[i]
      {
        ImportAllFrame(mm, conv, st, cs, i);
      }
    }
    assert forall i :: 0 <= i < ImageSize && Unmapped(mm, i) ==> ImportAll(mm, conv, st, cs).image[i] == image[i] by {
      forall i | 0 <= i < ImageSize && Unmapped(mm, i)
        ensures ImportAll(mm, conv, st, cs).image[i] == image[i]
      {
        ImportAllKeepsUnmapped(mm, conv, st, cs, i);
      }
    }
    ImportAll(mm, conv, st, cs).image
  }

  // ---------------------------------------------------------------------
  // Slot resolution

  /** A top-bank channel with slot `k` lands at the top region's base plus
      `k - 1` records: slot 1 at the base, each further slot one record
      width on. */
  lemma TopBankAddressing(mm: MemoryMap, c: Channel, counter: nat)
    requires counter >= 1
    requires c.memname == "" && c.bank < 2 && 1 <= c.slot <= mm.nChannels
    ensures Resolve(mm, c, counter).target == Some(TopSlot(c.slot - 1))
    ensures Locate(mm, TopSlot(c.slot - 1)).fields.start == mm.topOffset + (c.slot - 1) * mm.channelSize
    ensures Locate(mm, TopSlot(c.slot - 1)).tag.start == mm.topTagOffset + (c.slot - 1) * mm.tagSize
    ensures c.slot == 1 ==> Locate(mm, TopSlot(0)).fields.start == mm.topOffset
    ensures c.slot < mm.nChannels ==>
      Locate(mm, TopSlot(c.slot)).fields.start == Locate(mm, TopSlot(c.slot - 1)).fields.start + mm.channelSize
  {
  }

  /** A bottom-bank channel (`bank >= 2`) with slot `k` lands at the bottom
      region's base plus `k - 1` records, and so does one without a slot at
      the counter's value. */
  lemma BottomBankAddressing(mm: MemoryMap, c: Channel, counter: nat)
    requires counter >= 1
    requires c.memname == "" && c.bank >= 2 && SlotOf(c, counter) <= mm.nChannels
    ensures Resolve(mm, c, counter).target == Some(BottomSlot(SlotOf(c, counter) - 1))
    ensures Locate(mm, BottomSlot(SlotOf(c, counter) - 1)).fields.start
         == mm.botOffset + (SlotOf(c, counter) - 1) * mm.channelSize
    ensures Locate(mm, BottomSlot(SlotOf(c, counter) - 1)).tag.start
         == mm.botTagOffset + (SlotOf(c, counter) - 1) * mm.tagSize
  {
  }

  /** A named channel goes to the first program entry of that name, or to
      the home slot when no entry has it, whatever its slot; it still uses
      up an automatic slot when it has none. */
  lemma NamedChannelPlacement(mm: MemoryMap, c: Channel, counter: nat)
    requires counter >= 1 && c.memname != ""
    ensures Resolve(mm, c, counter).target.Some?
    ensures c.memname in mm.programNames ==>
      var t := Resolve(mm, c, counter).target.value;
      t.ProgramSlot? && mm.programNames[t.index] == c.memname
      && forall j :: 0 <= j < t.index ==> mm.programNames[j] != c.memname
    ensures c.memname !in mm.programNames ==> Resolve(mm, c, counter).target == Some(HomeSlot)
    ensures Resolve(mm, c, counter).next == counter + (if c.slot == 0 then 1 else 0)
  {
    var r := ProgramIndex(mm.programNames, c.memname, 0);
    if c.memname in mm.programNames {
      var j :| 0 <= j < |mm.programNames| && mm.programNames[j] == c.memname;
      assert r.Some?;
    }
  }

  /** A bank channel whose slot is past the bank's capacity is skipped: the
      image is left exactly as it was. */
  lemma OverflowSkipped(mm: MemoryMap, conv: string -> seq<bv8>, st: State, c: Channel)
    requires Ready(mm, st)
    requires c.memname == "" && SlotOf(c, st.counter) - 1 >= mm.nChannels
    ensures ImportChannel(mm, conv, st, c).image == st.image
  {
  }

  // ---------------------------------------------------------------------
  // Image writes

  /** Importing one channel writes its field record and its tag record at
      its slot and changes no other byte; a skipped channel changes
      nothing. */
  lemma ImportFrame(mm: MemoryMap, conv: string -> seq<bv8>, st: State, c: Channel)
    requires Ready(mm, st)
    ensures var r := ImportChannel(mm, conv, st, c); var recs := EncodeChannel(mm, conv, Some(c));
      match Resolve(mm, c, st.counter).target
      case None => r.image == st.image
      case Some(t) =>
        var p := Locate(mm, t);
        && p.fields.End() <= ImageSize && p.tag.End() <= ImageSize
        && r.image[p.fields.start..p.fields.End()] == recs.fields
        && r.image[p.tag.start..p.tag.End()] == recs.tag
        && forall i :: 0 <= i < ImageSize && !p.fields.Contains(i) && !p.tag.Contains(i) ==> r.image[i] == st.image[i]
  {
    var recs := EncodeChannel(mm, conv, Some(c));
    match Resolve(mm, c, st.counter).target
    case None =>
    case Some(t) =>
      var p := Locate(mm, t);
      PlacementFits(mm, t);
      var s1 := Splice(st.image, p.fields.start, recs.fields);
      SpliceCommute(st.image, p.fields.start, recs.fields, p.tag.start, recs.tag);
      var s2 := Splice(st.image, p.tag.start, recs.tag);
      assert Place(mm, st.image, t, recs) == Splice(s2, p.fields.start, recs.fields);
  }

  /** Writing a slot twice keeps only the second records. */
  lemma PlaceTwice(mm: MemoryMap, image: seq<bv8>, t: Target, r1: Records, r2: Records)
    requires Valid(mm) && InRange(mm, t) && |image| == ImageSize
    requires |r1.fields| == |r2.fields| == mm.channelSize && |r1.tag| == |r2.tag| == mm.tagSize
    ensures Place(mm, Place(mm, image, t, r1), t, r2) == Place(mm, image, t, r2)
  {
    PlacementFits(mm, t);
    var p := Locate(mm, t);
    var a := Splice(image, p.fields.start, r1.fields);
    SpliceCommute(a, p.fields.start, r2.fields, p.tag.start, r1.tag);
    SpliceTwice(a, p.fields.start, r1.fields, r2.fields);
    SpliceTwice(image, p.fields.start, r1.fields, r2.fields);
    var b := Splice(image, p.fields.start, r2.fields);
    SpliceTwice(b, p.tag.start, r1.tag, r2.tag);
  }

  /** Two channels that resolve to the same slot: only the second one's
      bytes survive, as if the first had never been written. */
  lemma LastWriteWins(mm: MemoryMap, conv: string -> seq<bv8>, st: State, c1: Channel, c2: Channel)
    requires Ready(mm, st)
    requires Resolve(mm, c1, st.counter).target.Some?
    requires Resolve(mm, c2, ImportChannel(mm, conv, st, c1).counter).target
          == Resolve(mm, c1, st.counter).target
    ensures ImportChannel(mm, conv, ImportChannel(mm, conv, st, c1), c2).image
         == ImportChannel(mm, conv, State(st.image, ImportChannel(mm, conv, st, c1).counter), c2).image
  {
    var t := Resolve(mm, c1, st.counter).target.value;
    PlaceTwice(mm, st.image, t, EncodeChannel(mm, conv, Some(c1)), EncodeChannel(mm, conv, Some(c2)));
  }

  /** Placing records at one slot leaves another slot's bytes as they
      were. */
  lemma PlaceKeepsOtherSlot(mm: MemoryMap, image: seq<bv8>, t: Target, u: Target, recs: Records)
    requires Valid(mm) && InRange(mm, t) && InRange(mm, u) && t != u && |image| == ImageSize
    requires |recs.fields| == mm.channelSize && |recs.tag| == mm.tagSize
    ensures var p := Locate(mm, u);
      && p.fields.End() <= ImageSize && p.tag.End() <= ImageSize
      && Place(mm, image, t, recs)[p.fields.start..p.fields.End()] == image[p.fields.start..p.fields.End()]
      && Place(mm, image, t, recs)[p.tag.start..p.tag.End()] == image[p.tag.start..p.tag.End()]
  {
    PlacementFits(mm, t);
    PlacementFits(mm, u);
    TargetsDisjoint(mm, t, u);
    var p, q := Locate(mm, u), Locate(mm, t);
    var a := Splice(image, q.fields.start, recs.fields);
    var b := Splice(a, q.tag.start, recs.tag);
    assert b == Place(mm, image, t, recs);
    KeepsArea(image, a, b, q.fields, q.tag, p.fields);
    KeepsArea(image, a, b, q.fields, q.tag, p.tag);
  }

  /** Two splices outside an area leave the area's bytes as they were. */
  lemma KeepsArea(s: seq<bv8>, a: seq<bv8>, b: seq<bv8>, x: Area, y: Area, z: Area)
    requires |a| == |b| == |s| && z.End() <= |s|
    requires forall i :: 0 <= i < |s| && !x.Contains(i) ==> a[i] == s[i]
    requires forall i :: 0 <= i < |s| && !y.Contains(i) ==> b[i] == a[i]
    requires Disjoint(x, z) && Disjoint(y, z)
    ensures b[z.start..z.End()] == s[z.start..z.End()]
  {
    forall i | z.start <= i < z.End()
      ensures b[i] == s[i]
    {
      assert !x.Contains(i) && !y.Contains(i);
    }
  }

  /** Channels that resolve to different slots do not disturb each other:
      after the second is written the first one's records are still there. */
  lemma DistinctSlotsIndependent(mm: MemoryMap, conv: string -> seq<bv8>, st: State, c1: Channel, c2: Channel)
    requires Ready(mm, st)
    requires Resolve(mm, c1, st.counter).target.Some?
    requires Resolve(mm, c2, ImportChannel(mm, conv, st, c1).counter).target.Some?
    requires Resolve(mm, c2, ImportChannel(mm, conv, st, c1).counter).target
          != Resolve(mm, c1, st.counter).target
    ensures var t := Resolve(mm, c1, st.counter).target.value;
      var p := Locate(mm, t);
      var img := ImportChannel(mm, conv, ImportChannel(mm, conv, st, c1), c2).image;
      && p.fields.End() <= ImageSize && p.tag.End() <= ImageSize
      && img[p.fields.start..p.fields.End()] == EncodeChannel(mm, conv, Some(c1)).fields
      && img[p.tag.start..p.tag.End()] == EncodeChannel(mm, conv, Some(c1)).tag
  {
    var s1 := ImportChannel(mm, conv, st, c1);
    var t := Resolve(mm, c1, st.counter).target.value;
    var u := Resolve(mm, c2, s1.counter).target.value;
    var r1 := EncodeChannel(mm, conv, Some(c1));
    var r2 := EncodeChannel(mm, conv, Some(c2));
    ImportWrites(mm, conv, st, c1);
    ImportWrites(mm, conv, s1, c2);
    PlacementFits(mm, t);
    var p := Locate(mm, t);
    assert s1.image[p.fields.start..p.fields.End()] == r1.fields;
    assert s1.image[p.tag.start..p.tag.End()] == r1.tag;
    PlaceKeepsOtherSlot(mm, s1.image, u, t, r2);
  }

  /** A channel that resolves to a slot is placed there. */
  lemma ImportWrites(mm: MemoryMap, conv: string -> seq<bv8>, st: State, c: Channel)
    requires Ready(mm, st) && Resolve(mm, c, st.counter).target.Some?
    ensures var t := Resolve(mm, c, st.counter).target.value;
      var recs := EncodeChannel(mm, conv, Some(c));
      var p := Locate(mm, t);
      && ImportChannel(mm, conv, st, c).image == Place(mm, st.image, t, recs)
      && p.fields.End() <= ImageSize && p.tag.End() <= ImageSize
      && Place(mm, st.image, t, recs)[p.fields.start..p.fields.End()] == recs.fields
      && Place(mm, st.image, t, recs)[p.tag.start..p.tag.End()] == recs.tag
  {
    var t := Resolve(mm, c, st.counter).target.value;
    var recs := EncodeChannel(mm, conv, Some(c));
    PlacementFits(mm, t);
    var p := Locate(mm, t);
    var a := Splice(st.image, p.fields.start, recs.fields);
    SpliceCommute(st.image, p.fields.start, recs.fields, p.tag.start, recs.tag);
  }

  // ---------------------------------------------------------------------
  // The whole document

  /** Number of channels without a slot of their own. */
  function AutoCount(cs: seq<Channel>): nat {
    if |cs| == 0 then 0 else (if cs[0].slot == 0 then 1 else 0) + AutoCount(cs[1..])
  }

  /** The counter advances once per slot-less channel (named ones included)
      and for nothing else. */
  lemma {:induction false} CounterCountsAutoSlots(mm: MemoryMap, conv: string -> seq<bv8>, st: State, cs: seq<Channel>)
    requires Ready(mm, st)
    ensures ImportAll(mm, conv, st, cs).counter == st.counter + AutoCount(cs)
    decreases |cs|
  {
    if |cs| > 0 {
      CounterCountsAutoSlots(mm, conv, ImportChannel(mm, conv, st, cs[0]), cs[1..]);
    }
  }

  lemma {:induction false} ImportAllAppend(mm: MemoryMap, conv: string -> seq<bv8>, st: State, a: seq<Channel>, b: seq<Channel>)
    requires Ready(mm, st)
    ensures ImportAll(mm, conv, st, a + b) == ImportAll(mm, conv, ImportAll(mm, conv, st, a), b)
    decreases |a|
  {
    if |a| > 0 {
      assert (a + b)[1..] == a[1..] + b;
      ImportAllAppend(mm, conv, ImportChannel(mm, conv, st, a[0]), a[1..], b);
    } else {
      assert a + b == b;
    }
  }

  /** The k-th channel, when it has no slot, gets 101 plus the number of
      slot-less channels before it. */
  lemma AutoSlotOfChannel(mm: MemoryMap, conv: string -> seq<bv8>, image: seq<bv8>, cs: seq<Channel>, k: nat)
    requires Valid(mm) && |image| == ImageSize && k < |cs| && cs[k].slot == 0
    ensures var before := ImportAll(mm, conv, State(image, FirstAutoSlot), cs[..k]);
      SlotOf(cs[k], before.counter) == FirstAutoSlot + AutoCount(cs[..k])
  {
    CounterCountsAutoSlots(mm, conv, State(image, FirstAutoSlot), cs[..k]);
  }

  /** A byte of the image outside all eight areas of the memory map. */
  predicate Unmapped(mm: MemoryMap, i: int) {
    forall k :: 0 <= k < 8 ==> !Areas(mm)[k].Contains(i)
  }

  lemma ImportKeepsUnmapped(mm: MemoryMap, conv: string -> seq<bv8>, st: State, c: Channel, i: nat)
    requires Ready(mm, st) && i < ImageSize && Unmapped(mm, i)
    ensures ImportChannel(mm, conv, st, c).image[i] == st.image[i]
  {
    ImportFrame(mm, conv, st, c);
    match Resolve(mm, c, st.counter).target
    case None =>
    case Some(t) =>
      LocateInside(mm, t);
      var k := 2 * RegionOf(t);
      assert !Areas(mm)[k].Contains(i) && !Areas(mm)[k + 1].Contains(i);
  }

  /** Bytes outside every channel area are never written. */
  lemma {:induction false} ImportAllKeepsUnmapped(mm: MemoryMap, conv: string -> seq<bv8>, st: State, cs: seq<Channel>, i: nat)
    requires Ready(mm, st) && i < ImageSize && Unmapped(mm, i)
    ensures ImportAll(mm, conv, st, cs).image[i] == st.image[i]
    decreases |cs|
  {
    if |cs| > 0 {
      var s1 := ImportChannel(mm, conv, st, cs[0]);
      ImportKeepsUnmapped(mm, conv, st, cs[0], i);
      ImportAllKeepsUnmapped(mm, conv, s1, cs[1..], i);
    }
  }

  /** The slots a sequence of channels is written to, in order, starting
      from the counter value `counter`; skipped channels contribute none. */
  function Written(mm: MemoryMap, counter: nat, cs: seq<Channel>): (ts: seq<Target>)
    requires counter >= 1
    ensures |ts| <= |cs|
    ensures forall k :: 0 <= k < |ts| ==> InRange(mm, ts[k])
    decreases |cs|
  {
    if |cs| == 0 then []
    else
      var res := Resolve(mm, cs[0], counter);
      (match res.target case None => [] case Some(t) => [t]) + Written(mm, res.next, cs[1..])
  }

  /** Byte `i` lies in a record of the slot `t`. */
  predicate Covers(mm: MemoryMap, t: Target, i: int) {
    Locate(mm, t).fields.Contains(i) || Locate(mm, t).tag.Contains(i)
  }

  /** Byte `i` lies in a record of one of the slots `ts`. */
  predicate Touched(mm: MemoryMap, ts: seq<Target>, i: int) {
    exists k :: 0 <= k < |ts| && Covers(mm, ts[k], i)
  }

  /** A byte outside the records of every slot written to keeps its
      value. */
  lemma {:induction false} ImportAllFrame(mm: MemoryMap, conv: string -> seq<bv8>, st: State, cs: seq<Channel>, i: nat)
    requires Ready(mm, st) && i < ImageSize && !Touched(mm, Written(mm, st.counter, cs), i)
    ensures ImportAll(mm, conv, st, cs).image[i] == st.image[i]
    decreases |cs|
  {
    if |cs| > 0 {
      var res := Resolve(mm, cs[0], st.counter);
      var s1 := ImportChannel(mm, conv, st, cs[0]);
      var head: seq<Target> := match res.target case None => [] case Some(t) => [t];
      var rest := Written(mm, res.next, cs[1..]);
      assert Written(mm, st.counter, cs) == head + rest;
      assert !Touched(mm, rest, i) by {
        forall k | 0 <= k < |rest|
          ensures !Covers(mm, rest[k], i)
        {
          assert (head + rest)[|head| + k] == rest[k];
        }
      }
      ImportFrame(mm, conv, st, cs[0]);
      ImportAllFrame(mm, conv, s1, cs[1..], i);
      if res.target.Some? {
        assert (head + rest)[0] == res.target.value;
        assert !Covers(mm, res.target.value, i);
      }
    }
  }

  /** The import loop as the source runs it, channel after channel with the
      counter in a local variable. It computes the same image as the
      functional fold, keeps the image's size, and leaves every byte outside
      the channel areas untouched. */
  method ImportChannels(mm: MemoryMap, conv: string -> seq<bv8>, image: seq<bv8>, cs: seq<Channel>)
    returns (out: seq<bv8>, next: nat)
    requires Valid(mm) && |image| == ImageSize
    ensures State(out, next) == ImportAll(mm, conv, State(image, FirstAutoSlot), cs)
    ensures next == FirstAutoSlot + AutoCount(cs)
    ensures |out| == ImageSize
    ensures forall i :: 0 <= i < ImageSize && Unmapped(mm, i) ==> out[i] == image[i]
  {
    var st := State(image, FirstAutoSlot);
    var k := 0;
    while k < |cs|
      invariant 0 <= k <= |cs|
      invariant Ready(mm, st)
      invariant ImportAll(mm, conv, st, cs[k..]) == ImportAll(mm, conv, State(image, FirstAutoSlot), cs)
      invariant st.counter == FirstAutoSlot + AutoCount(cs[..k])
      invariant forall i :: 0 <= i < ImageSize && Unmapped(mm, i) ==> st.image[i] == image[i]
    {
      forall i | 0 <= i < ImageSize && Unmapped(mm, i)
        ensures ImportChannel(mm, conv, st, cs[k]).image[i] == image[i]
      {
        ImportKeepsUnmapped(mm, conv, st, cs[k], i);
      }
      assert cs[k..][1..] == cs[k + 1..];
      AutoCountAppend(cs[..k], [cs[k]]);
      assert cs[..k] + [cs[k]] == cs[..k + 1];
      st := ImportChannel(mm, conv, st, cs[k]);
      k := k + 1;
    }
    assert cs[k..] == [];
    assert cs[..k] == cs;
    out, next := st.image, st.counter;
  }

  lemma {:induction false} AutoCountAppend(a: seq<Channel>, b: seq<Channel>)
    ensures AutoCount(a + b) == AutoCount(a) + AutoCount(b)
    decreases |a|
  {
    if |a| > 0 {
      assert (a + b)[1..] == a[1..] + b;
      AutoCountAppend(a[1..], b);
    } else {
      assert a + b == b;
    }
  }

  /** The channel element of the end-to-end lemma below: top bank, slot 1,
      146.520 MHz, high power. */
  predicate IsSimplexNode(n: ChannelNode) {
    && n.nameAttr == None && n.bankAttr == Some("0") && n.slotAttr == Some("1")
    && n.children == [Element("frequency", Some("146.520")), Element("power", Some("high"))]
  }

  /** A one-channel document: the top bank's first record is programmed,
      VHF, simplex, holds 146.520 MHz at high power, and every byte outside
      that slot's two records is as it was. */
  lemma EndToEndSimplexChannel(mm: MemoryMap, t: Tables, conv: string -> seq<bv8>, image: seq<bv8>, n: ChannelNode)
    requires Valid(mm) && |image| == ImageSize && mm.nChannels >= 1 && IsSimplexNode(n)
    ensures AllParsable([n])
    ensures var out := ProcessDoc(mm, t, conv, image, [n]);
      && mm.topOffset + mm.channelSize <= ImageSize
      && var d := Decode(out[mm.topOffset..mm.topOffset + mm.channelSize]);
      && d.programmed && d.band == 1 && d.rx == 146520 && d.power == 0 && d.topBank
      && d.shift == 0 && !d.txPresent
      && forall i :: 0 <= i < ImageSize && !Covers(mm, TopSlot(0), i) ==> out[i] == image[i]
  {
    SimplexParse(t, mm.tagSize, n);
    var c := ParseChannel(t, mm.tagSize, n);
    var st := State(image, FirstAutoSlot);
    var s1 := ImportChannel(mm, conv, st, c);
    var cs := ParseAll(t, mm.tagSize, [n]);
    assert cs == [c];
    assert ImportAll(mm, conv, st, cs) == ImportAll(mm, conv, s1, []);
    assert ProcessDoc(mm, t, conv, image, [n]) == s1.image;
    SimplexRecord(mm, conv, st, c);
    TopBankAddressing(mm, c, st.counter);
    ImportFrame(mm, conv, st, c);
  }

  lemma SimplexRecord(mm: MemoryMap, conv: string -> seq<bv8>, st: State, c: Channel)
    requires Ready(mm, st) && mm.nChannels >= 1
    requires c.memname == "" && c.bank == 0 && c.slot == 1 && c.rx == 146520 && c.power == 0
    requires c.tx == 0 && c.duplex == 0 && c.band == 0
    ensures var out := ImportChannel(mm, conv, st, c).image;
      && mm.topOffset + mm.channelSize <= ImageSize
      && var d := Decode(out[mm.topOffset..mm.topOffset + mm.channelSize]);
      && d.programmed && d.band == 1 && d.rx == 146520 && d.power == 0 && d.topBank
      && d.shift == 0 && !d.txPresent
  {
    var recs := EncodeChannel(mm, conv, Some(c));
    TopBankAddressing(mm, c, st.counter);
    ImportWrites(mm, conv, st, c);
    var out := ImportChannel(mm, conv, st, c).image;
    assert out[mm.topOffset..mm.topOffset + mm.channelSize] == recs.fields;
    DecodeEncode(mm, conv, c);
    StoredSimplex();
  }

  lemma StoredSimplex()
    ensures StoredFreq(146520) == 146520
  {
  }

  lemma SimplexParse(t: Tables, tagSize: nat, n: ChannelNode)
    requires IsSimplexNode(n)
    ensures AllParsable([n])
    ensures var c := ParseChannel(t, tagSize, n);
      && c.memname == "" && c.bank == 0 && c.slot == 1 && c.rx == 146520 && c.power == 0
      && c.tx == 0 && c.duplex == 0 && c.band == 0
  {
    var e1, e2 := Element("frequency", Some("146.520")), Element("power", Some("high"));
    assert TextPresent(e1) && TextPresent(e2);
    assert AttrValue(n.bankAttr) == 0 && AttrValue(n.slotAttr) == 1 by {
      Decimal.DigitRunOfDigits("0", "");
      Decimal.DigitRunOfDigits("1", "");
      assert "0" + "" == "0" && "1" + "" == "1";
      assert "1"[..0] == "";
    }
    SimplexValues();
    ParseFrequencyAndPower(t, tagSize, n, e1, e2);
    assert [n][0] == n;
  }

  /** The text values of the one-channel document. */
  lemma SimplexValues()
    ensures FieldOf("frequency") == FrequencyField && Decimal.Thousandths("146.520") == 146520
    ensures FieldOf("power") == PowerField && PowerLevel("high") == Some(0)
  {
    Decimal.SimplexFrequency();
    PowerKeywords("high", 0);
  }

  /** An unnamed channel element with a frequency and a power child. */
  lemma ParseFrequencyAndPower(t: Tables, tagSize: nat, n: ChannelNode, e1: Element, e2: Element)
    requires n.nameAttr == None && n.children == [e1, e2]
    requires FieldOf(e1.name) == FrequencyField && e1.text.Some?
    requires FieldOf(e2.name) == PowerField && e2.text.Some? && PowerLevel(e2.text.value).Some?
    ensures AllTextPresent(n.children)
    ensures var c := ParseChannel(t, tagSize, n);
      && c.memname == "" && c.bank == AttrValue(n.bankAttr) && c.slot == AttrValue(n.slotAttr)
      && c.rx == Decimal.Thousandths(e1.text.value) && c.power == PowerLevel(e2.text.value).value
      && c.tx == 0 && c.duplex == 0 && c.band == 0
  {
    ParsePair(t, tagSize, n, e1, e2);
    BankAndSlot(n);
  }

  /** A channel element with two children parses as the two applied to its
      attributes, then the offset default. */
  lemma ParsePair(t: Tables, tagSize: nat, n: ChannelNode, e1: Element, e2: Element)
    requires n.children == [e1, e2] && TextPresent(e1) && TextPresent(e2)
    ensures AllTextPresent(n.children)
    ensures ParseChannel(t, tagSize, n)
         == DefaultOffset(ApplyElement(t, tagSize, ApplyElement(t, tagSize, FromAttributes(n), e1), e2))
  {
    ApplyPair(t, tagSize, FromAttributes(n), e1, e2);
  }

  /** Without a `name` attribute, `bank` and `slot` come from the attributes
      and everything else starts blank. */
  lemma BankAndSlot(n: ChannelNode)
    requires n.nameAttr == None
    ensures FromAttributes(n) == Blank.(bank := AttrValue(n.bankAttr), slot := AttrValue(n.slotAttr))
  {
  }
}
