/** The record packer: a channel becomes a fixed-width field record of OR-ed
    bit fields and BCD frequency digits, plus a tag record holding the display
    name. `Decode` reads every field back out of a record; the lemmas relate
    the two. */
module Encoder {
  import opened Bytes
  import opened Channels
  import opened Layout

  /** Above this receive frequency (kHz) a channel without a band is UHF. */
  const UhfThreshold: nat := 300 * 1000

  /** The three bytes a frequency occupies: `hi` holds the 5 kHz bit (bit 7)
      and the 100 MHz digit (low nibble), `mid` the 10 MHz and 1 MHz digits,
      `lo` the 100 kHz and 10 kHz digits (high nibble first). */
  datatype FreqBytes = FreqBytes(hi: bv8, mid: bv8, lo: bv8)

  const NoFreq: FreqBytes := FreqBytes(0, 0, 0)

  /** Peels decimal digits off `f` by repeated division by ten, least
      significant first, and stores each in its nibble; the 1 kHz digit only
      decides the 5 kHz bit. */
  function PackFreq(f: nat): FreqBytes {
    var d0 := f % 10;
    var x1 := f / 10;
    var d1 := x1 % 10;
    var x2 := x1 / 10;
    var d2 := x2 % 10;
    var x3 := x2 / 10;
    var d3 := x3 % 10;
    var x4 := x3 / 10;
    var d4 := x4 % 10;
    var x5 := x4 / 10;
    var d5 := x5 % 10;
    FreqBytes(
      (if d0 >= 5 then 0x80 else 0) | Masked(d5, 16),
      Masked(d3, 16) | (Masked(d4, 16) << 4),
      Masked(d1, 16) | (Masked(d2, 16) << 4))
  }

  /** Byte 0 bits 0-2: the explicit band minus one, else 3 (UHF) or 1 (VHF)
      by the receive frequency. */
  function BandBits(c: Channel): bv8 {
    if c.band != 0 then Masked(c.band - 1, 8)
    else if c.rx > UhfThreshold then 0x03
    else 0x01
  }

  /** Byte 1 bits 0-2: bit 2 when a transmit frequency is given; otherwise
      `11` for a positive and `10` for a negative repeater shift. */
  function ShiftBits(c: Channel): bv8 {
    if c.tx != 0 then 0x04
    else if c.duplex > 0 then 0x03
    else if c.duplex < 0 then 0x02
    else 0x00
  }

  /** Byte 13: the repeater offset in 50 kHz steps, only for a shifted
      channel without a transmit frequency; steps above 255 are cut to the
      low byte. */
  function OffsetByte(c: Channel): bv8 {
    if c.duplex != 0 && c.tx == 0 then LowByte(c.offset / 50) else 0
  }

  /** Byte 0: programmed bit 7, scan mode in bits 5-6, band in bits 0-2. */
  function ScanBandByte(c: Channel): bv8 {
    (Masked(c.scan, 4) << 5) | BandBits(c) | 0x80
  }

  /** Byte 1: shift bits 0-2, mode in bits 4-6. */
  function ShiftModeByte(c: Channel): bv8 {
    ShiftBits(c) | (Masked(c.mode, 8) << 4)
  }

  /** Byte 9: power in bits 6-7, tone index in bits 0-4. */
  function PowerToneByte(c: Channel): bv8 {
    (Masked(c.power, 4) << 6) | Masked(c.tone, 32)
  }

  /** Byte 11: the marker nibble, and bit 7 for the top bank. */
  function BankByte(c: Channel): bv8 {
    0x0F | (if c.bank < 2 then 0x80 else 0x00)
  }

  /** The transmit frequency's bytes, all zero when there is none. */
  function TxBytes(c: Channel): FreqBytes {
    if c.tx != 0 then PackFreq(c.tx) else NoFreq
  }

  /** The fourteen bytes the packer writes, in record order. */
  function PackFields(c: Channel): (b: seq<bv8>)
    ensures |b| == PackedBytes
  {
    var rx := PackFreq(c.rx);
    var tx := TxBytes(c);
    [ ScanBandByte(c),
      ShiftModeByte(c),
      rx.hi, rx.mid, rx.lo,
      Masked(c.sql, 16) << 4,
      tx.hi, tx.mid, tx.lo,
      PowerToneByte(c),
      Masked(c.dcs, 32),
      BankByte(c),
      0x00,
      OffsetByte(c) ]
  }

  /** The two records written for one slot. */
  datatype Records = Records(fields: seq<bv8>, tag: seq<bv8>)

  /** Encodes a channel, or a blank slot when there is none. `conv` turns the
      tag string into display bytes; its output is laid over the tag record
      after that record is filled with the fill byte. */
  function EncodeChannel(mm: MemoryMap, conv: string -> seq<bv8>, c: Option<Channel>): (r: Records)
    requires mm.channelSize >= PackedBytes
    ensures |r.fields| == mm.channelSize && |r.tag| == mm.tagSize
    ensures c.None? ==>
      && (forall i :: 0 <= i < mm.channelSize ==> r.fields[i] == 0)
      && (forall i :: 0 <= i < mm.tagSize ==> r.tag[i] == mm.tagFill)
    ensures c.Some? ==>
      && r.fields[12] == 0
      && (forall i :: PackedBytes <= i < mm.channelSize ==> r.fields[i] == 0)
      && (forall i :: 0 <= i < mm.tagSize ==>
            r.tag[i] == (if i < |conv(c.value.tag)| then conv(c.value.tag)[i] else mm.tagFill))
  {
    match c
    case None => Records(Fill(mm.channelSize, 0), Fill(mm.tagSize, mm.tagFill))
    case Some(ch) =>
      Records(PackFields(ch) + Fill(mm.channelSize - PackedBytes, 0),
              Overlay(Fill(mm.tagSize, mm.tagFill), conv(ch.tag)))
  }

  // ---------------------------------------------------------------------
  // Reading a record back

  /** Every nibble of a packed frequency holds one decimal digit. */
  predicate Bcd(b: FreqBytes) {
    && b.hi & 0x0F < 10
    && b.mid >> 4 < 10 && b.mid & 0x0F < 10
    && b.lo >> 4 < 10 && b.lo & 0x0F < 10
  }

  /** The contents of a field record, field by field. */
  datatype Decoded = Decoded(
    programmed: bool,
    scan: nat,
    band: nat,
    txPresent: bool,
    shift: nat,
    mode: nat,
    rx: nat,
    tx: nat,
    sql: nat,
    power: nat,
    tone: nat,
    dcs: nat,
    marker: nat,
    topBank: bool,
    offsetSteps: nat)

  /** Reassembles a frequency (kHz) from its digit nibbles and 5 kHz bit. */
  function UnpackFreq(b: FreqBytes): nat {
    100000 * ((b.hi & 0x0F) as nat)
    + 10000 * ((b.mid >> 4) as nat) + 1000 * ((b.mid & 0x0F) as nat)
    + 100 * ((b.lo >> 4) as nat) + 10 * ((b.lo & 0x0F) as nat)
    + (if b.hi & 0x80 != 0 then 5 else 0)
  }

  function Decode(rec: seq<bv8>): Decoded
    requires |rec| >= PackedBytes
  {
    Decoded(
      programmed := rec[0] & 0x80 != 0,
      scan := ((rec[0] >> 5) & 0x03) as nat,
      band := (rec[0] & 0x07) as nat,
      txPresent := rec[1] & 0x04 != 0,
      shift := (rec[1] & 0x03) as nat,
      mode := ((rec[1] >> 4) & 0x07) as nat,
      rx := UnpackFreq(FreqBytes(rec[2], rec[3], rec[4])),
      tx := UnpackFreq(FreqBytes(rec[6], rec[7], rec[8])),
      sql := (rec[5] >> 4) as nat,
      power := (rec[9] >> 6) as nat,
      tone := (rec[9] & 0x1F) as nat,
      dcs := (rec[10] & 0x1F) as nat,
      marker := (rec[11] & 0x0F) as nat,
      topBank := rec[11] & 0x80 != 0,
      offsetSteps := Unsigned(rec[13]))
  }

  /** Bits of the first fourteen bytes that no field uses, and the bytes past
      them, are all clear, and the frequency nibbles are decimal digits. */
  predicate ReservedClear(rec: seq<bv8>)
    requires |rec| >= PackedBytes
  {
    && rec[0] & 0x18 == 0
    && rec[1] & 0x88 == 0
    && rec[2] & 0x70 == 0
    && rec[5] & 0x0F == 0
    && rec[6] & 0x70 == 0
    && rec[9] & 0x20 == 0
    && rec[10] & 0xE0 == 0
    && rec[11] & 0x70 == 0
    && Bcd(FreqBytes(rec[2], rec[3], rec[4]))
    && Bcd(FreqBytes(rec[6], rec[7], rec[8]))
    && rec[12] == 0
    && (forall i :: PackedBytes <= i < |rec| ==> rec[i] == 0)
  }

  /** What a frequency reads back as: the digits below 1000 MHz, with the
      1 kHz digit reduced to the 5 kHz step below it. */
  function StoredFreq(f: nat): nat {
    var g := f % 1000000;
    g - g % 10 + (if g % 10 >= 5 then 5 else 0)
  }

  /** The band code the radio sees. */
  function BandCode(c: Channel): nat {
    if c.band != 0 then (c.band - 1) % 8
    else if c.rx > UhfThreshold then 3
    else 1
  }

  /** The meaning of the packed record for `c`, stated arithmetically. */
  function Expected(c: Channel): Decoded {
    Decoded(
      programmed := true,
      scan := c.scan % 4,
      band := BandCode(c),
      txPresent := c.tx != 0,
      shift := if c.tx != 0 then 0 else if c.duplex > 0 then 3 else if c.duplex < 0 then 2 else 0,
      mode := c.mode % 8,
      rx := StoredFreq(c.rx),
      tx := if c.tx != 0 then StoredFreq(c.tx) else 0,
      sql := c.sql % 16,
      power := c.power % 4,
      tone := c.tone % 32,
      dcs := c.dcs % 32,
      marker := 15,
      topBank := c.bank < 2,
      offsetSteps := if c.duplex != 0 && c.tx == 0 then (c.offset / 50) % 256 else 0)
  }

  // ---------------------------------------------------------------------
  // Lemmas

  /** A number is its six low decimal digits plus a multiple of a million. */
  lemma SixDigits(f: nat)
    ensures var x1 := f / 10; var x2 := x1 / 10; var x3 := x2 / 10;
      var x4 := x3 / 10; var x5 := x4 / 10;
      f % 1000000 == f % 10 + 10 * (x1 % 10) + 100 * (x2 % 10)
        + 1000 * (x3 % 10) + 10000 * (x4 % 10) + 100000 * (x5 % 10)
  {
    var x1 := f / 10;
    var x2 := x1 / 10;
    var x3 := x2 / 10;
    var x4 := x3 / 10;
    var x5 := x4 / 10;
    var x6 := x5 / 10;
    var low := f % 10 + 10 * (x1 % 10) + 100 * (x2 % 10)
      + 1000 * (x3 % 10) + 10000 * (x4 % 10) + 100000 * (x5 % 10);
    assert f == low + 1000000 * x6 by {
      assert f == f % 10 + 10 * x1;
      assert x1 == x1 % 10 + 10 * x2;
      assert x2 == x2 % 10 + 10 * x3;
      assert x3 == x3 % 10 + 10 * x4;
      assert x4 == x4 % 10 + 10 * x5;
      assert x5 == x5 % 10 + 10 * x6;
    }
    assert 0 <= low < 1000000;
    ModUnique(f, x6, low);
  }

  lemma ModUnique(f: nat, q: nat, r: nat)
    requires 0 <= r < 1000000 && f == r + 1000000 * q
    ensures f % 1000000 == r
  {
  }

  /** The BCD round trip: each nibble of the packed bytes of `f` is one
      decimal digit, and unpacking them yields `f` below 1000 MHz, rounded
      down to the 5 kHz step. */
  lemma FreqRoundTrip(f: nat)
    ensures UnpackFreq(PackFreq(f)) == StoredFreq(f)
    ensures PackFreq(f).hi & 0x70 == 0
    ensures Bcd(PackFreq(f))
  {
    var x1 := f / 10;
    var x2 := x1 / 10;
    var x3 := x2 / 10;
    var x4 := x3 / 10;
    var x5 := x4 / 10;
    var d0, d1, d2, d3, d4, d5 := f % 10, x1 % 10, x2 % 10, x3 % 10, x4 % 10, x5 % 10;
    assert PackFreq(f) == FreqBytes(
        (if d0 >= 5 then 0x80 else 0) | Masked(d5, 16),
        Masked(d3, 16) | (Masked(d4, 16) << 4),
        Masked(d1, 16) | (Masked(d2, 16) << 4));
    UnpackDigits(d0 >= 5, d1, d2, d3, d4, d5);
    SixDigits(f);
    var g := f % 1000000;
    var rest := d1 + 10 * d2 + 100 * d3 + 1000 * d4 + 10000 * d5;
    assert g == d0 + 10 * rest;
    LowDigit(g, rest, d0);
    assert StoredFreq(f) == g - d0 + (if d0 >= 5 then 5 else 0);
  }

  lemma LowDigit(g: nat, q: nat, r: nat)
    requires r < 10 && g == r + 10 * q
    ensures g % 10 == r
  {
  }

  /** Unpacking bytes packed from six digit values gives their decimal
      value. */
  lemma UnpackDigits(half: bool, d1: nat, d2: nat, d3: nat, d4: nat, d5: nat)
    requires d1 < 10 && d2 < 10 && d3 < 10 && d4 < 10 && d5 < 10
    ensures var b := FreqBytes(
        (if half then 0x80 else 0) | Masked(d5, 16),
        Masked(d3, 16) | (Masked(d4, 16) << 4),
        Masked(d1, 16) | (Masked(d2, 16) << 4));
      && UnpackFreq(b) == 100000 * d5 + 10000 * d4 + 1000 * d3 + 100 * d2 + 10 * d1 + (if half then 5 else 0)
      && b.hi & 0x70 == 0
      && Bcd(b)
  {
    DigitPair(d3, d4);
    DigitPair(d1, d2);
    HiDigit(half, d5);
  }

  /** Two decimal digits packed low/high into one byte read back as the
      digits. */
  lemma DigitPair(lo: nat, hi: nat)
    requires lo < 10 && hi < 10
    ensures var b := Masked(lo, 16) | (Masked(hi, 16) << 4);
      (b & 0x0F) as nat == lo && (b >> 4) as nat == hi
  {
    MaskedValue(lo, 16);
    MaskedValue(hi, 16);
    NibblesApart(Masked(lo, 16), Masked(hi, 16));
  }

  /** The high frequency byte reads back as its digit and its 5 kHz bit. */
  lemma HiDigit(half: bool, d: nat)
    requires d < 10
    ensures var b := (if half then 0x80 else 0) | Masked(d, 16);
      (b & 0x0F) as nat == d && (b & 0x80 != 0) == half && b & 0x70 == 0
  {
    MaskedValue(d, 16);
    HiByte(half, Masked(d, 16));
  }

  lemma HiByte(half: bool, d: bv8)
    requires d < 10
    ensures ((if half then 0x80 else 0) | d) & 0x0F == d
    ensures (((if half then 0x80 else 0) | d) & 0x80 != 0) == half
    ensures ((if half then 0x80 else 0) | d) & 0x70 == 0
  {
  }

  /** StoredFreq is the frequency below 1000 MHz rounded down to a multiple
      of 5 kHz. */
  lemma StoredFreqIsFiveKhzStep(f: nat)
    ensures StoredFreq(f) == (f % 1000000) / 5 * 5
    ensures StoredFreq(f) <= f % 1000000 < StoredFreq(f) + 5
  {
  }

  /** Byte 0: programmed bit, scan bits and band bits each read back as
      packed, and bits 3-4 stay clear. */
  lemma Byte0(c: Channel)
    ensures var b := PackFields(c)[0];
      && b & 0x80 != 0
      && ((b >> 5) & 0x03) as nat == c.scan % 4
      && (b & 0x07) as nat == BandCode(c)
      && b & 0x18 == 0
  {
    MaskedValue(c.scan, 4);
    MaskedValue(c.band - 1, 8);
    var s, k := Masked(c.scan, 4), BandBits(c);
    assert k < 8;
    BitsApart(s, k);
  }

  lemma BitsApart(s: bv8, k: bv8)
    requires s < 4 && k < 8
    ensures var b := (s << 5) | k | 0x80;
      b & 0x80 != 0 && (b >> 5) & 0x03 == s && b & 0x07 == k && b & 0x18 == 0
  {
  }

  /** Byte 1: shift bits and mode bits read back as packed. */
  lemma Byte1(c: Channel)
    ensures var b := PackFields(c)[1]; var d := Expected(c);
      && (b & 0x04 != 0) == d.txPresent
      && (b & 0x03) as nat == d.shift
      && ((b >> 4) & 0x07) as nat == d.mode
      && b & 0x88 == 0
  {
    MaskedValue(c.mode, 8);
    ShiftModeApart(ShiftBits(c), Masked(c.mode, 8));
  }

  lemma ShiftModeApart(s: bv8, m: bv8)
    requires s < 5 && m < 8
    ensures var b := s | (m << 4);
      (b & 0x04) == s & 0x04 && b & 0x03 == s & 0x03 && (b >> 4) & 0x07 == m && b & 0x88 == 0
  {
  }

  /** Bytes 5 and 9-11: squelch, power, tone, DCS, marker and bank flag. */
  lemma Bytes5To11(c: Channel)
    ensures var p := PackFields(c); var d := Expected(c);
      && (p[5] >> 4) as nat == d.sql && p[5] & 0x0F == 0
      && (p[9] >> 6) as nat == d.power && (p[9] & 0x1F) as nat == d.tone && p[9] & 0x20 == 0
      && (p[10] & 0x1F) as nat == d.dcs && p[10] & 0xE0 == 0
      && (p[11] & 0x0F) as nat == 15 && (p[11] & 0x80 != 0) == d.topBank && p[11] & 0x70 == 0
  {
    MaskedValue(c.sql, 16);
    MaskedValue(c.power, 4);
    MaskedValue(c.tone, 32);
    MaskedValue(c.dcs, 32);
    PowerToneApart(Masked(c.power, 4), Masked(c.tone, 32));
    SqlApart(Masked(c.sql, 16));
    DcsApart(Masked(c.dcs, 32));
  }

  lemma PowerToneApart(p: bv8, t: bv8)
    requires p < 4 && t < 32
    ensures var b := (p << 6) | t; b >> 6 == p && b & 0x1F == t && b & 0x20 == 0
  {
  }

  lemma SqlApart(s: bv8)
    requires s < 16
    ensures (s << 4) >> 4 == s && (s << 4) & 0x0F == 0
  {
  }

  lemma DcsApart(d: bv8)
    requires d < 32
    ensures d & 0x1F == d && d & 0xE0 == 0
  {
  }

  /** Decoding the packed record of a channel yields exactly the channel's
      fields, each cut to the width of its bit field; every bit no field uses
      is clear. */
  lemma DecodeEncode(mm: MemoryMap, conv: string -> seq<bv8>, c: Channel)
    requires mm.channelSize >= PackedBytes
    ensures Decode(EncodeChannel(mm, conv, Some(c)).fields) == Expected(c)
    ensures ReservedClear(EncodeChannel(mm, conv, Some(c)).fields)
  {
    var rec := EncodeChannel(mm, conv, Some(c)).fields;
    EncodedStartsWithPacked(mm, conv, c);
    DecodeFlags(rec, c);
    DecodeFreqs(rec, c);
    DecodeLevels(rec, c);
    ReservedPacked(rec, c);
  }

  lemma EncodedStartsWithPacked(mm: MemoryMap, conv: string -> seq<bv8>, c: Channel)
    requires mm.channelSize >= PackedBytes
    ensures StartsWithPacked(EncodeChannel(mm, conv, Some(c)).fields, c)
  {
  }

  /** A record that starts with the packed bytes of `c`. */
  predicate StartsWithPacked(rec: seq<bv8>, c: Channel) {
    |rec| >= PackedBytes && rec[..PackedBytes] == PackFields(c)
  }

  /** Bytes 0 and 1 read back: programmed bit, scan, band, shift and mode. */
  lemma DecodeFlags(rec: seq<bv8>, c: Channel)
    requires StartsWithPacked(rec, c)
    ensures var d, e := Decode(rec), Expected(c);
      && d.programmed == e.programmed && d.scan == e.scan && d.band == e.band
      && d.txPresent == e.txPresent && d.shift == e.shift && d.mode == e.mode
  {
    assert rec[0] == PackFields(c)[0] && rec[1] == PackFields(c)[1];
    Byte0(c);
    Byte1(c);
  }

  /** Bytes 2-4 and 6-8 read back as the stored receive and transmit
      frequencies. */
  lemma DecodeFreqs(rec: seq<bv8>, c: Channel)
    requires StartsWithPacked(rec, c)
    ensures Decode(rec).rx == Expected(c).rx && Decode(rec).tx == Expected(c).tx
  {
    var p := PackFields(c);
    assert rec[2] == p[2] && rec[3] == p[3] && rec[4] == p[4];
    assert rec[6] == p[6] && rec[7] == p[7] && rec[8] == p[8];
    FreqRoundTrip(c.rx);
    assert FreqBytes(rec[2], rec[3], rec[4]) == PackFreq(c.rx);
    if c.tx != 0 {
      FreqRoundTrip(c.tx);
      assert FreqBytes(rec[6], rec[7], rec[8]) == PackFreq(c.tx);
    } else {
      assert FreqBytes(rec[6], rec[7], rec[8]) == NoFreq;
    }
  }

  /** Bytes 5, 9-11 and 13 read back: squelch, power, tone, DCS, marker,
      bank flag and offset steps. */
  lemma DecodeLevels(rec: seq<bv8>, c: Channel)
    requires StartsWithPacked(rec, c)
    ensures var d, e := Decode(rec), Expected(c);
      && d.sql == e.sql && d.power == e.power && d.tone == e.tone && d.dcs == e.dcs
      && d.marker == e.marker && d.topBank == e.topBank && d.offsetSteps == e.offsetSteps
  {
    var p := PackFields(c);
    assert rec[5] == p[5] && rec[9] == p[9] && rec[10] == p[10] && rec[11] == p[11] && rec[13] == p[13];
    Bytes5To11(c);
    LowByteValue(c.offset / 50);
  }

  /** The unused bits of the packed bytes are clear. */
  lemma ReservedPacked(rec: seq<bv8>, c: Channel)
    requires StartsWithPacked(rec, c)
    requires forall i :: PackedBytes <= i < |rec| ==> rec[i] == 0
    ensures ReservedClear(rec)
  {
    var p := PackFields(c);
    assert rec[0] == p[0] && rec[1] == p[1] && rec[5] == p[5];
    assert rec[9] == p[9] && rec[10] == p[10] && rec[11] == p[11] && rec[12] == p[12];
    Byte0(c);
    Byte1(c);
    Bytes5To11(c);
    PackedFreqsBcd(rec, c);
  }

  /** The frequency bytes of a packed record hold decimal digits and leave
      bits 4-6 of their high byte clear. */
  lemma PackedFreqsBcd(rec: seq<bv8>, c: Channel)
    requires StartsWithPacked(rec, c)
    ensures Bcd(FreqBytes(rec[2], rec[3], rec[4])) && rec[2] & 0x70 == 0
    ensures Bcd(FreqBytes(rec[6], rec[7], rec[8])) && rec[6] & 0x70 == 0
  {
    var p := PackFields(c);
    assert rec[2] == p[2] && rec[3] == p[3] && rec[4] == p[4];
    assert rec[6] == p[6] && rec[7] == p[7] && rec[8] == p[8];
    FreqRoundTrip(c.rx);
    assert FreqBytes(rec[2], rec[3], rec[4]) == PackFreq(c.rx);
    if c.tx != 0 {
      FreqRoundTrip(c.tx);
      assert FreqBytes(rec[6], rec[7], rec[8]) == PackFreq(c.tx);
    } else {
      assert FreqBytes(rec[6], rec[7], rec[8]) == NoFreq;
    }
  }

  /** A blank slot reads back as unprogrammed, with every field zero. */
  lemma DecodeBlank(mm: MemoryMap, conv: string -> seq<bv8>)
    requires mm.channelSize >= PackedBytes
    ensures Decode(EncodeChannel(mm, conv, None).fields)
         == Decoded(false, 0, 0, false, 0, 0, 0, 0, 0, 0, 0, 0, 0, false, 0)
  {
  }

  /** Tone index `k + 32` packs to the same records as `k`: the tone field
      keeps five bits, so the top ten entries of the tone table do not
      survive packing. */
  lemma ToneAliasing(mm: MemoryMap, conv: string -> seq<bv8>, c: Channel)
    requires mm.channelSize >= PackedBytes
    ensures EncodeChannel(mm, conv, Some(c.(tone := c.tone + 32)))
         == EncodeChannel(mm, conv, Some(c))
  {
    assert Masked(c.tone + 32, 32) == Masked(c.tone, 32) by {
      assert (c.tone + 32) % 32 == c.tone % 32;
    }
    assert PackFields(c.(tone := c.tone + 32)) == PackFields(c);
  }
}
