# FTM-400 channel import: a Dafny model of the channel codec

The importer of the FTM-400D tools reads a channel list (an XML document of
`channel` elements) and writes each channel into the radio's 25,600-byte
memory image. Each channel is stored as two records: a fixed-width packed
field record (BCD frequencies, bit fields for band, shift, mode, squelch,
power, tone, DCS, scan and the repeater offset) and a tag record holding its
display name. The records go to one of four regions: the top bank, the
bottom bank, the named program channels or the home channel.

This project models the three parts of `ftm-import.C` that carry the logic:

- `encodeChannel`: the record packer, in `encoder.dfy` (module `Encoder`).
  It comes with a decoder that reads every bit field back.
- The value rules of `parseChannel`, in `decimal.dfy` (module `Decimal`) and
  `parser.dfy` (module `Parser`). They cover the decimal reader for
  frequencies and offsets, the case-insensitive table lookups, the tone
  switch, the power keywords, the `name`/`tag` precedence, the offset sign
  rules and the default repeater offset.
- The placement loop of `processDoc`, in `importer.dfy` (module `Importer`).
  It covers the automatic slot counter starting at 101, slot resolution in
  the four regions, skipping a slot past a bank's capacity, and splicing both
  records into the image.

The supporting modules are:

- `bytes.dfy` (`Bytes`): masking ints to bytes, filling, splicing and
  overlaying byte sequences.
- `layout.dfy` (`Layout`): the memory map. The device constants of `ftm.h`
  are a `MemoryMap` parameter with a validity predicate: records of at least
  14 bytes, and eight areas that fit in the image and do not overlap.
- `channel.dfy` (`Channels`): the logical channel value.

The model is all pure functions, except for one method. `ImportChannels` is
the import loop written as the source writes it, and it is proved equal to
the functional fold.

Frequencies and offsets are in kHz (thousandths of a MHz), as in the source:
`146.520` is `146520`. Bytes are `bv8`. The source masks with `&`; the model
writes this as a Euclidean remainder (`Bytes.Masked`).

## Model

| member | source | states |
|---|---|---|
| Encoder.PackFreq | ftm-import.C:64-85 | Peels six decimal digits off a frequency by repeated division by ten. It stores five of them as BCD nibbles, and the lowest (1 kHz) digit only decides the 5 kHz bit. `Encoder.FreqRoundTrip` and `Encoder.DecodeEncode` state what it stores. |
| Encoder.PackFields | ftm-import.C:52-142 | The fourteen bytes the packer ORs together, in record order. `Encoder.DecodeEncode` states the value of every field in them and that every unused bit is clear. |
| Encoder.EncodeChannel | ftm-import.C:32-50 | The field record is `CHANNEL_SIZE` bytes and the tag record `TAG_SIZE` bytes. A null channel gives an all-zero field record and an all-fill tag record. For a channel, the tag record is the converted tag over the fill byte, cut to the record width. Byte 12 and every byte from 14 on stay zero. |
| Encoder.DecodeEncode | ftm-import.C:52-142 | Decoding the packed record gives back each channel field, cut to its bit width: the programmed bit, scan, band (explicit `band-1`, or inferred 3 above 300,000 kHz and 1 otherwise), TX-present or shift (0x04, 3 for `+`, 2 for `-`), mode, RX and TX frequencies (every frequency nibble a decimal digit), squelch, power, tone, DCS, the 0x0f marker, the bank<2 bit and the offset in 50 kHz steps (only when shifted without a TX frequency). Every bit that no field uses is clear. |
| Encoder.FreqRoundTrip | ftm-import.C:64-85 | Each of the five nibbles of a packed frequency holds one decimal digit (BCD). Unpacking those five digits and the 5 kHz bit gives the frequency below 1000 MHz, rounded down to its 5 kHz step. Bits 4-6 of the high byte stay free. |
| Encoder.StoredFreqIsFiveKhzStep | ftm-import.C:64-69 | The frequency that survives packing is the largest multiple of 5 kHz that is not above the frequency mod 1000 MHz. |
| Encoder.DecodeBlank | ftm-import.C:37-40 | A slot cleared for a null channel decodes with every field zero: unprogrammed, no frequency, no shift, no tone, no marker and no bank bit. |
| Encoder.ToneAliasing | ftm-import.C:121 | Tone index `k + 32` packs to the same field and tag records as `k`. The 5-bit mask loses tone indices 32-41. |
| Bytes.LowByteValue | ftm-import.C:135-136 | The offset byte `0xFF & offset` reads back as the step count modulo 256: steps past 255 lose their high bits. |
| Decimal.LeadingValue | ftm-import.C:197 | `strtol` on a digit string: the value of the leading digits. `Decimal.DigitRun` states where it stops, and `Decimal.ThousandthsOfInteger` states its value. |
| Decimal.ThousandthsAsWritten | ftm-import.C:195-207 | The decimal reader as written. `Decimal.AsWrittenAgreesOnDigits` ties it to the corrected reader on digits, and `Decimal.TrailingSpaceMisread` shows where the two part. |
| Decimal.Thousandths | ftm-import.C:195-207 | The corrected decimal reader. `Decimal.ThousandthsOfDecimal`, `Decimal.ThousandthsOfInteger`, `Decimal.ThousandthsTruncates` and `Decimal.MissingDigitsAreZero` state its value. |
| Decimal.DigitRun | ftm-import.C:197 | Where `strtol` stops: every character before it is a digit, and the one at it is not. |
| Decimal.ThousandthsOfDecimal | ftm-import.C:195-207 | `I.f` with up to three fraction digits reads as `I*1000` plus `f` scaled to thousandths. Missing digits count as zero. |
| Decimal.ThousandthsOfInteger | ftm-import.C:197-198 | A number without a point reads as whole MHz times 1000. |
| Decimal.ThousandthsTruncates | ftm-import.C:203-206 | Fraction digits past the third are dropped, not rounded. |
| Decimal.MissingDigitsAreZero | ftm-import.C:200-207 | A missing fraction digit counts as zero: `I.f` and `I.f0` read the same when `f` has at most two digits, so `146.52` and `146.520` are both 146520. |
| Decimal.AsWrittenAgreesOnDigits | ftm-import.C:203-206 | If the characters the fraction loop reads are digits, the loop as written and the corrected loop give the same value. |
| Decimal.TrailingSpaceMisread | ftm-import.C:203-206 | The loop as written reads `146.52 ` as 146504, where the corrected loop gives 146520. |
| Parser.Lookup | ftm-import.C:186-192 | The result is the first index, from the starting index on, whose entry matches ignoring ASCII case. It is `None` exactly when no entry matches. |
| Parser.LookupFindsEntry | ftm-import.C:260-266 | In a table whose entries differ even ignoring case, a string matches entry `k` if and only if the lookup returns `k`. |
| Parser.ToneIndex | ftm-import.C:273-326 | The tone switch. `Parser.ToneSwitchMatchesTable`, `Parser.ToneIndexOfKey` and `Parser.ToneSwitchInjective` state that it is the lookup of the tone table, defaulting to 12. |
| Parser.ToneSwitchCases | ftm-import.C:273-326 | The tone switch gives an index of the tone table. The index is either the 100.0 Hz default or the index of a tone whose integer part is the value read. |
| Parser.ToneIndexOfKey | ftm-import.C:277-319 | The i-th listed tone goes to index i. |
| Parser.ToneSwitchMatchesTable | ftm-import.C:273-326 | A value is a listed tone if and only if the table entry at the switch's index equals it. An unlisted value gets index 12 (100.0 Hz). |
| Parser.ToneSwitchInjective | ftm-import.C:277-319 | Distinct listed tones get distinct indices. |
| Parser.PowerLevel | ftm-import.C:351-358 | The power keywords. `Parser.PowerKeywords` states which strings give which level. |
| Parser.PowerKeywords | ftm-import.C:351-358 | A string selects power level `p` if and only if it spells `high`, `medium` or `low` (the p-th keyword) in any case. |
| Parser.Truncate | ftm-import.C:364 | The kept tag is a prefix of the text. It is the whole text when the text fits, and exactly its first `TAG_SIZE` characters when it does not. |
| Parser.DefaultOffset | ftm-import.C:391-398 | After defaulting, a shifted channel always has an offset. A shifted channel without one gets 5000 kHz when `rx > 300` (the kHz value compared with 300) and 600 kHz otherwise; no other channel's offset changes, and no other field does. |
| Parser.FromAttributes | ftm-import.C:153-170 | A `name` attribute makes a named channel, and then `bank` and `slot` are not read. Otherwise the channel has no name, and its bank and slot are the `strtol` values of the `bank` and `slot` attributes (0 when absent). All other fields start blank. |
| Parser.ApplyOffset | ftm-import.C:226-257 | The `offset` element. `Parser.OffsetSign` and `Parser.BareSign` state its effect. |
| Parser.ApplyElement | ftm-import.C:186-388 | One child element's effect. It is stated element by element: `Parser.TableElements` for `band`, `sql`, `dcs`, `scan` and `mode`, `Parser.ValueElements` for `frequency`, `txFrequency`, `tone`, `power` and unrecognised names, `Parser.OffsetSign` and `Parser.BareSign` for `offset`, and `Parser.TagStable`, `Parser.TagTakesPrecedence` and `Parser.FirstNameWins` for `name` and `tag`. `Parser.ElementKeepsWellFormed` gives the bounds every element keeps. |
| Parser.ApplyAll | ftm-import.C:172-389 | The child elements applied in document order. No child element changes the name, bank or slot that decide where the channel goes. `Parser.ApplyAllAppend` states that a longer element list is applied as its parts in sequence. |
| Parser.TableElements | ftm-import.C:186-387 | A `band`, `sql`, `dcs` or `scan` element sets its field to the first index from 1 on whose table entry matches the text ignoring case, and a `mode` element does the same from index 0. When no entry matches, the field keeps its value. No other field changes. |
| Parser.ValueElements | ftm-import.C:195-359 | `frequency` and `txFrequency` set their frequency to the decimal read. `tone` sets the tone switch's index of the leading number. `power` sets level `p` when the text spells the p-th keyword in any case, and otherwise keeps the level. An unrecognised element name changes nothing. Each sets only its own field. |
| Parser.ParseChannel | ftm-import.C:145-401 | A whole channel element. `Parser.ParsedChannelWellFormed`, `Parser.TagTakesPrecedence`, `Parser.FirstNameWins` and `Parser.RepeaterDefaultOffset` state its result. |
| Parser.ElementKeepsWellFormed | ftm-import.C:186-388 | Each child element keeps the channel well formed. That means a direction in {-1,0,1}, a tone index of the table, a power level below 3, a tag that fits, and enumerations that are unset or entries of their tables. |
| Parser.AllKeepWellFormed | ftm-import.C:172-389 | The same holds after any sequence of child elements. |
| Parser.ParsedChannelWellFormed | ftm-import.C:145-401 | Every parsed channel is well formed, and a shifted one has a non-zero offset. |
| Parser.ApplyAllAppend | ftm-import.C:172-389 | Applying `a + b` is applying `a` and then `b`: the child loop is a left fold. |
| Parser.TagStable | ftm-import.C:361-369 | Once the tag is non-empty, `name` elements leave it alone and only `tag` changes it. |
| Parser.TagTakesPrecedence | ftm-import.C:361-374 | A `tag` element beats any `name` before or after it. The display name is the text of the last `tag`, cut to size. |
| Parser.FirstNameWins | ftm-import.C:361-369 | Without `tag` elements, the display name is the first non-empty `name`, cut to size. |
| Parser.OffsetSign | ftm-import.C:235-257 | A signed or unsigned decimal offset sets the direction from its sign (`+` when it has none) and the magnitude from the number. Nothing else changes. |
| Parser.BareSign | ftm-import.C:227-234 | A bare `+` or `-` sets only the direction and keeps any offset read before. |
| Parser.RepeaterDefaultOffset | ftm-import.C:391-398 | `146.520` with a bare `+` gets the 5000 kHz default, which packs as 0x64 steps of 50 kHz. |
| Layout.Locate | ftm-import.C:461-481 | Base offset plus index times record width. `Importer.TopBankAddressing` and `Importer.BottomBankAddressing` give the addresses; `Layout.LocateInside`, `Layout.PlacementFits` and `Layout.TargetsDisjoint` place them in the image. |
| Layout.LocateInside | ftm-import.C:461-481 | The field and tag records of an in-range slot lie inside its region's field area and tag area. |
| Layout.PlacementFits | ftm-import.C:461-481 | Both records of a slot lie inside the image and do not overlap. |
| Layout.TargetsDisjoint | ftm-import.C:461-481 | The records of two distinct slots, in the same or different regions, never overlap. |
| Importer.ProgramIndex | ftm-import.C:456-458 | The result is the first program-channel name equal to the channel's name, compared exactly. It is `None` when no name is equal. |
| Importer.SlotOf | ftm-import.C:447 | A channel's own slot is never overridden. While the counter is at 1 or more the slot is never 0, so the decrement that follows gives a 0-based index. `Importer.CounterCountsAutoSlots` states what the counter holds. |
| Importer.Resolve | ftm-import.C:447-487 | A channel resolves to a slot inside its region, or to none. A named channel goes to a program slot holding its name, or to the home slot exactly when no program slot has that name. Any other channel with effective slot `k` is skipped when `k - 1 >= NCHANNELS`, and otherwise goes to slot `k - 1` of the top bank when `bank < 2` and of the bottom bank otherwise. The counter advances exactly when the channel has no slot of its own. |
| Importer.TopBankAddressing | ftm-import.C:470-472 | A top-bank channel with slot `k` lands at `TOP + (k-1)*CHANNEL_SIZE` (and the matching tag offset). Slot 1 is at the base, and each next slot is one record width on. |
| Importer.BottomBankAddressing | ftm-import.C:479-486 | A channel with `bank >= 2` and effective slot `k` lands at `BOT + (k-1)*CHANNEL_SIZE` (and the matching tag offset), whether `k` is its own slot or the counter's value. |
| Importer.NamedChannelPlacement | ftm-import.C:453-468 | A named channel goes to the first program slot with its name, or to the home slot if there is none. This holds whatever its slot, and a named channel without a slot still uses up a counter value. |
| Importer.OverflowSkipped | ftm-import.C:474-486 | A bank channel whose slot is past `NCHANNELS` leaves the image exactly as it was. |
| Importer.Place | ftm-import.C:489 | Writes both records of one slot into the image. `Importer.ImportFrame` and `Importer.PlaceTwice` state what changes. |
| Importer.ImportChannel | ftm-import.C:447-489 | One channel imported. `Importer.ImportFrame`, `Importer.OverflowSkipped` and `Importer.LastWriteWins` state its effect. |
| Importer.ImportAll | ftm-import.C:424-489 | The channels imported in document order. `Importer.ImportAllFrame`, `Importer.CounterCountsAutoSlots` and `Importer.ImportAllAppend` state its effect. |
| Importer.Written | ftm-import.C:447-487 | The slots a sequence of channels is written to, in order, each inside its region. Skipped channels add none. |
| Importer.ImportFrame | ftm-import.C:489 | Importing a channel writes its field and tag records at its slot and changes no other byte. A skipped channel changes nothing. |
| Importer.PlaceTwice | ftm-import.C:489 | Writing a slot twice leaves only the second records. |
| Importer.LastWriteWins | ftm-import.C:447-489 | When two channels resolve to the same slot, the image is as if only the second had been imported. |
| Importer.DistinctSlotsIndependent | ftm-import.C:447-489 | After a channel at another slot is imported, the first channel's records are still intact. |
| Importer.CounterCountsAutoSlots | ftm-import.C:423-447 | After a document, the counter has advanced once for every channel without a slot, named ones included. |
| Importer.ImportAllAppend | ftm-import.C:424-489 | Importing `a + b` is importing `a` and then `b` from the resulting state. |
| Importer.AutoSlotOfChannel | ftm-import.C:423-448 | A channel without a slot gets 101 plus the number of slot-less channels before it. |
| Importer.ImportAllFrame | ftm-import.C:423-489 | A byte outside the two records of every slot the channels are written to keeps its value. |
| Importer.ImportAllKeepsUnmapped | ftm-import.C:423-489 | A byte outside all eight channel areas is never written. |
| Importer.ImportChannels | ftm-import.C:423-489 | The import loop computes the same image and counter as the fold. The image keeps its size, and bytes outside the channel areas stay as they were. |
| Importer.ProcessDoc | ftm-import.C:423-489 | Processing a document keeps the image at 25,600 bytes. It changes no byte outside the records of the slots its channels are written to, and so none outside the eight channel areas. |
| Importer.EndToEndSimplexChannel | ftm-import.C:423-489 | A one-channel document (bank 0, slot 1, 146.520, high power) gives a first top-bank record that is programmed, VHF, simplex, 146.520 MHz, at high power. Every byte outside that slot's two records is unchanged, in every other slot and region too. |

## Where the code and its documentation differ

The model follows the code in each of these cases.

- TX frequency present: the code sets `0x04` in byte 1 (ftm-import.C:109), not the two low bits `11`.
- Inferred band: the code writes 3 for UHF and 1 for VHF (ftm-import.C:57-61), not 2 and 0.
- Default repeater offset: the code compares the kHz value `rx` with `300` (ftm-import.C:393), not with 300 MHz. So every channel above 0.3 MHz gets the 5000 kHz default, including 2 m repeaters.
- Tone: the switch produces indices up to 41, but only five bits are packed (ftm-import.C:121). Bit 5 of byte 9 is never used, so tones 32-41 alias tones 0-9 (`Encoder.ToneAliasing`).

## Findings

| source | as written | input that shows it | evidently intended | confidence | as-written member | corrected member |
|---|---|---|---|---|---|---|
| ftm-import.C:203-206 (also 218-221 and 250-253) | The fraction loop stops only at the end of the string. Every character adds `weight * (ch - '0')`, digit or not. | `146.52 ` (trailing space) reads as 146504 instead of 146520 | Stop at the first non-digit, as `strtol` does for the integer part | medium, not executed | Decimal.TrailingSpaceMisread | Decimal.Thousandths |

`Decimal.ThousandthsAsWritten` models the loop as written, and
`Decimal.TrailingSpaceMisread` exhibits the misreading. `Decimal.Thousandths`
is the corrected reader. The rest of the model uses it, and
`Decimal.ThousandthsOfDecimal`, `Decimal.ThousandthsTruncates` and
`Decimal.AsWrittenAgreesOnDigits` are proved about it.

## Left out

- Program entry, argument handling and the reading and writing of the image file: I/O outside the codec.
- The XML walk: parsing the document, checking the root element and its namespace URI, and skipping non-element nodes, nodes in another namespace and elements not named `channel` (ftm-import.C:407-437, 172-180). The model takes the channel elements and their child elements already filtered, in document order.
- Diagnostics written to `cout`/`cerr`, and the null check after `parseChannel` (ftm-import.C:440-442). `parseChannel` never returns null, so that check has no effect.
- The `CHARSET_EXPERIMENT` blocks (ftm-import.C:42-47, 491 onward): a compile-time option that is off by default.
- `str2data`, the tag-to-device-charset conversion, is a function parameter. `ftm.h`, which defines it, the table contents and the memory-map constants, is not part of this model. The tables are a `Tables` parameter and the constants a `MemoryMap` parameter with the validity predicate `Layout.Valid`.
- `Channels.Blank`: the model assumes the `Channel` constructor starts every field at zero or empty.
- `Decimal.ThousandthsAsWritten`: a character after the point is read as its Unicode code point. The C loop reads the bytes of the UTF-8 text as `char`, whose signedness depends on the platform. The two readings agree on ASCII text, and every string in the finding is ASCII.
- `Decimal.LeadingValue`: `strtol` is modelled for digit strings only. Leading white space, signs, base prefixes and overflow are not modelled, so `bank` and `slot` are never negative in the model.
- `Encoder.EncodeChannel`: frequencies, offsets and the `long * 1000` products are unbounded naturals. The C `unsigned`/`long` wrap-around is not modelled.
- `Parser.ApplyElement`: a value element with no text (an empty element) makes the source pass a null pointer to `strcmp`/`strtol`. The model states this as the precondition `Parser.TextPresent` instead of modelling a crash. `name` and `tag` check for null and are modelled on both paths.
- `Importer.ProcessDoc`: its own contract states the size of the image and the bytes it leaves alone; what it writes is stated by the `Importer` lemmas about `ImportAll` and by `Importer.EndToEndSimplexChannel`.
- `Parser.ApplyElement`: frequencies, transmit frequencies and offsets are read with the corrected reader `Decimal.Thousandths` (see Findings), not with the loop as written. The two agree whenever the characters after the point are digits (`Decimal.AsWrittenAgreesOnDigits`). They differ when a non-digit follows the point within three characters: `146.52 ` is stored as 146504 by the code and 146520 by the model, and `146.5` followed by a newline as 146120 and 146500.
- `Parser.Truncate`: counts characters. The code's `std::string` counts bytes, so a tag with non-ASCII characters (several UTF-8 bytes each) is cut at a different place, possibly inside a character. Byte encoding belongs to the tag conversion, which is a parameter.
- The mode of the end-to-end channel is not asserted: it depends on the contents of the `modes` table, which is a parameter.
