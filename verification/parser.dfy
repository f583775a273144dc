/** The value rules of the channel parser. The document walk itself belongs
    to the XML library and is not modelled: a channel element arrives as its
    three attributes and the sequence of its child elements (name and text),
    in document order, already filtered to the expected namespace. Each child
    updates the channel in turn; after the last one a missing repeater offset
    gets its default. */
module Parser {
  import opened Channels
  import opened Decimal

  // ---------------------------------------------------------------------
  // Case-insensitive table lookup

  /** ASCII lower-casing, as `tolower` does in the C locale. */
  function Lower(ch: char): char {
    if 'A' <= ch <= 'Z' then (ch as int + 32) as char else ch
  }

  /** String equality as `strcasecmp` decides it. */
  predicate SameIgnoringCase(a: string, b: string) {
    |a| == |b| && forall i :: 0 <= i < |a| ==> Lower(a[i]) == Lower(b[i])
  }

  /** Index of the first entry at or after `from` that equals `s` ignoring
      case. */
  function Lookup(table: seq<string>, from: nat, s: string): (r: Option<nat>)
    decreases |table| - from
    ensures r.Some? ==>
      && from <= r.value < |table|
      && SameIgnoringCase(table[r.value], s)
      && forall j :: from <= j < r.value ==> !SameIgnoringCase(table[j], s)
    ensures r.None? ==> forall j :: from <= j < |table| ==> !SameIgnoringCase(table[j], s)
  {
    if from >= |table| then None
    else if SameIgnoringCase(table[from], s) then Some(from)
    else Lookup(table, from + 1, s)
  }

  /** The entries from `from` on differ from each other even ignoring case. */
  predicate DistinctFrom(table: seq<string>, from: nat) {
    forall j, k :: from <= j < k < |table| ==> !SameIgnoringCase(table[j], table[k])
  }

  /** Looking up any spelling of an entry of a table whose entries are
      distinct finds that entry. */
  lemma LookupFindsEntry(table: seq<string>, from: nat, k: nat, s: string)
    requires DistinctFrom(table, from) && from <= k < |table|
    ensures SameIgnoringCase(s, table[k]) <==> Lookup(table, from, s) == Some(k)
  {
    if SameIgnoringCase(s, table[k]) {
      assert SameIgnoringCase(table[k], s);
    }
  }

  // ---------------------------------------------------------------------
  // Device lookup tables

  /** The string tables of the device header, each up to (not including) its
      terminating null entry. `bands`, `sqls`, `dcsCodes` and `scans` are
      searched from index 1 (index 0 means "unset"); `modes` from index 0. */
  datatype Tables = Tables(
    bands: seq<string>,
    sqls: seq<string>,
    modes: seq<string>,
    dcsCodes: seq<string>,
    scans: seq<string>)

  /** The integer part of each CTCSS tone (Hz) the parser accepts, in the
      order of the tone table. */
  const ToneKeys: seq<int> := [
    67, 69, 71, 74, 77, 79, 82, 85, 88, 91, 94, 97, 100, 103, 107, 110,
    114, 118, 123, 127, 131, 136, 141, 146, 151, 156, 162, 167, 173, 179,
    186, 192, 203, 206, 210, 218, 225, 229, 233, 241, 250, 254]

  /** Index of 100.0 Hz, used for any tone the switch does not list. */
  const DefaultTone: nat := 12

  /** The tone switch. */
  function ToneIndex(l: int): nat {
    match l
    case 67 => 0 case 69 => 1 case 71 => 2 case 74 => 3 case 77 => 4
    case 79 => 5 case 82 => 6 case 85 => 7 case 88 => 8 case 91 => 9
    case 94 => 10 case 97 => 11 case 100 => 12 case 103 => 13 case 107 => 14
    case 110 => 15 case 114 => 16 case 118 => 17 case 123 => 18 case 127 => 19
    case 131 => 20 case 136 => 21 case 141 => 22 case 146 => 23 case 151 => 24
    case 156 => 25 case 162 => 26 case 167 => 27 case 173 => 28 case 179 => 29
    case 186 => 30 case 192 => 31 case 203 => 32 case 206 => 33 case 210 => 34
    case 218 => 35 case 225 => 36 case 229 => 37 case 233 => 38 case 241 => 39
    case 250 => 40 case 254 => 41
    case _ => DefaultTone
  }

  /** Each case of the switch is the listed tone at that index; the
      fall-through gives the 100.0 Hz index. */
  lemma ToneSwitchCases(l: int)
    ensures ToneIndex(l) < |ToneKeys|
    ensures ToneIndex(l) == DefaultTone || ToneKeys[ToneIndex(l)] == l
  {
  }

  /** The switch sends the i-th listed tone to index i. */
  lemma ToneIndexOfKey(i: nat)
    requires i < |ToneKeys|
    ensures ToneIndex(ToneKeys[i]) == i
  {
    if i < 14 {
    } else if i < 28 {
    } else {
    }
  }

  /** The switch is the lookup of a value in the tone table: a listed tone
      gets its index (so distinct tones get distinct indices) and every other
      value gets the 100.0 Hz index. */
  lemma ToneSwitchMatchesTable(l: int)
    ensures ToneIndex(l) < |ToneKeys|
    ensures l in ToneKeys <==> ToneKeys[ToneIndex(l)] == l
    ensures l !in ToneKeys ==> ToneIndex(l) == DefaultTone
  {
    ToneSwitchCases(l);
    if l in ToneKeys {
      var i :| 0 <= i < |ToneKeys| && ToneKeys[i] == l;
      ToneIndexOfKey(i);
    }
  }

  /** Distinct listed tones never share an index. */
  lemma ToneSwitchInjective(a: int, b: int)
    requires a in ToneKeys && b in ToneKeys && ToneIndex(a) == ToneIndex(b)
    ensures a == b
  {
    ToneSwitchMatchesTable(a);
    ToneSwitchMatchesTable(b);
  }

  /** The power keywords, by power level. */
  const PowerNames: seq<string> := ["high", "medium", "low"]

  function PowerLevel(s: string): Option<nat> {
    if SameIgnoringCase(s, "high") then Some(0)
    else if SameIgnoringCase(s, "medium") then Some(1)
    else if SameIgnoringCase(s, "low") then Some(2)
    else None
  }

  /** A string selects power level `p` exactly when it spells the p-th
      keyword in any case. */
  lemma PowerKeywords(s: string, p: nat)
    ensures PowerLevel(s) == Some(p) <==> p < 3 && SameIgnoringCase(s, PowerNames[p])
  {
  }

  // ---------------------------------------------------------------------
  // Child elements

  /** A child element: its name and its text, `None` when it has none. */
  datatype Element = Element(name: string, text: Option<string>)

  /** The child element names the parser recognises, compared exactly. */
  datatype Field =
    | BandField | FrequencyField | TxFrequencyField | OffsetField | SqlField | ToneField
    | DcsField | ModeField | PowerField | NameField | TagField | ScanField | OtherField

  function FieldOf(name: string): Field {
    if name == "band" then BandField
    else if name == "frequency" then FrequencyField
    else if name == "txFrequency" then TxFrequencyField
    else if name == "offset" then OffsetField
    else if name == "sql" then SqlField
    else if name == "tone" then ToneField
    else if name == "dcs" then DcsField
    else if name == "mode" then ModeField
    else if name == "power" then PowerField
    else if name == "name" then NameField
    else if name == "tag" then TagField
    else if name == "scan" then ScanField
    else OtherField
  }

  /** The parser reads the text of every recognised element except `name`
      and `tag` without a null check, so those need text. */
  predicate TextPresent(e: Element) {
    match FieldOf(e.name)
    case NameField => true
    case TagField => true
    case OtherField => true
    case _ => e.text.Some?
  }

  predicate AllTextPresent(es: seq<Element>) {
    forall i :: 0 <= i < |es| ==> TextPresent(es[i])
  }

  /** The tag text kept: at most `tagSize` characters. */
  function Truncate(s: string, tagSize: nat): (r: string)
    ensures |r| <= tagSize && r <= s
    ensures |s| <= tagSize ==> r == s
    ensures |s| > tagSize ==> |r| == tagSize
  {
    if |s| > tagSize then s[..tagSize] else s
  }

  function Pick(found: Option<nat>, current: nat): nat {
    match found
    case Some(i) => i
    case None => current
  }

  /** The `offset` element: a bare `+` or `-` only sets the direction;
      otherwise the direction is `-` for a leading minus and `+` otherwise,
      and the rest (past one sign character) is the offset magnitude. */
  function ApplyOffset(c: Channel, s: string): Channel {
    if s == "+" then c.(duplex := 1)
    else if s == "-" then c.(duplex := -1)
    else
      var signed := |s| > 0 && (s[0] == '-' || s[0] == '+');
      var magnitude := if signed then s[1..] else s;
      c.(duplex := if |s| > 0 && s[0] == '-' then -1 else 1, offset := Thousandths(magnitude))
  }

  /** One child element's effect on the channel. */
  function ApplyElement(t: Tables, tagSize: nat, c: Channel, e: Element): Channel
    requires TextPresent(e)
  {
    match FieldOf(e.name)
    case BandField => c.(band := Pick(Lookup(t.bands, 1, e.text.value), c.band))
    case FrequencyField => c.(rx := Thousandths(e.text.value))
    case TxFrequencyField => c.(tx := Thousandths(e.text.value))
    case OffsetField => ApplyOffset(c, e.text.value)
    case SqlField => c.(sql := Pick(Lookup(t.sqls, 1, e.text.value), c.sql))
    case ToneField => c.(tone := ToneIndex(LeadingValue(e.text.value)))
    case DcsField => c.(dcs := Pick(Lookup(t.dcsCodes, 1, e.text.value), c.dcs))
    case ModeField => c.(mode := Pick(Lookup(t.modes, 0, e.text.value), c.mode))
    case PowerField => c.(power := Pick(PowerLevel(e.text.value), c.power))
    case NameField =>
      if e.text.Some? && |c.tag| == 0 then c.(tag := Truncate(e.text.value, tagSize)) else c
    case TagField =>
      if e.text.Some? then c.(tag := Truncate(e.text.value, tagSize)) else c
    case ScanField => c.(scan := Pick(Lookup(t.scans, 1, e.text.value), c.scan))
    case OtherField => c
  }

  /** The child elements applied in document order. Where the channel goes
      (`memname`, `bank`, `slot`) comes from the attributes alone: no child
      element changes it. */
  function ApplyAll(t: Tables, tagSize: nat, c: Channel, es: seq<Element>): (r: Channel)
    requires AllTextPresent(es)
    ensures r.memname == c.memname && r.bank == c.bank && r.slot == c.slot
    decreases |es|
  {
    if |es| == 0 then c else ApplyAll(t, tagSize, ApplyElement(t, tagSize, c, es[0]), es[1..])
  }

  /** A shifted channel without an offset gets 5000 kHz above a receive
      value of 300 and 600 kHz otherwise; nothing else changes. */
  function DefaultOffset(c: Channel): (r: Channel)
    ensures r.duplex != 0 ==> r.offset != 0
    ensures r.(offset := c.offset) == c
    ensures r.offset != c.offset ==> c.duplex != 0 && c.offset == 0
    ensures c.duplex != 0 && c.offset == 0 ==> r.offset == (if c.rx > 300 then 5000 else 600)
  {
    if c.duplex != 0 && c.offset == 0 then
      c.(offset := if c.rx > 300 then 5000 else 600)
    else c
  }

  /** A `channel` element: its `name`, `bank` and `slot` attributes and its
      children. */
  datatype ChannelNode = ChannelNode(
    nameAttr: Option<string>,
    bankAttr: Option<string>,
    slotAttr: Option<string>,
    children: seq<Element>)

  function AttrValue(a: Option<string>): nat {
    match a
    case Some(s) => LeadingValue(s)
    case None => 0
  }

  /** A `name` attribute makes the channel a named one and its `bank` and
      `slot` attributes are not read. */
  function FromAttributes(n: ChannelNode): (c: Channel)
    ensures n.nameAttr.Some? ==> c.memname == n.nameAttr.value && c.bank == 0 && c.slot == 0
    ensures n.nameAttr.None? ==>
      c.memname == "" && c.bank == AttrValue(n.bankAttr) && c.slot == AttrValue(n.slotAttr)
    ensures c.(memname := "", bank := 0, slot := 0) == Blank
  {
    match n.nameAttr
    case Some(name) => Blank.(memname := name)
    case None => Blank.(bank := AttrValue(n.bankAttr), slot := AttrValue(n.slotAttr))
  }

  function ParseChannel(t: Tables, tagSize: nat, n: ChannelNode): Channel
    requires AllTextPresent(n.children)
  {
    DefaultOffset(ApplyAll(t, tagSize, FromAttributes(n), n.children))
  }

  // ---------------------------------------------------------------------
  // Properties of parsed channels

  /** The invariants a parsed channel keeps: a direction of -1, 0 or +1, a
      non-zero offset when shifted, a tone index of the table, a power
      level, a tag that fits its record, and enumerations that are unset or
      entries of their tables. */
  predicate WellFormed(t: Tables, tagSize: nat, c: Channel) {
    ScalarsWellFormed(tagSize, c) && EnumsWellFormed(t, c)
  }

  predicate ScalarsWellFormed(tagSize: nat, c: Channel) {
    && -1 <= c.duplex <= 1
    && c.tone < |ToneKeys|
    && c.power < 3
    && |c.tag| <= tagSize
  }

  predicate EnumsWellFormed(t: Tables, c: Channel) {
    && (c.band == 0 || c.band < |t.bands|)
    && (c.sql == 0 || c.sql < |t.sqls|)
    && (c.mode == 0 || c.mode < |t.modes|)
    && (c.dcs == 0 || c.dcs < |t.dcsCodes|)
    && (c.scan == 0 || c.scan < |t.scans|)
  }

  lemma ElementKeepsWellFormed(t: Tables, tagSize: nat, c: Channel, e: Element)
    requires TextPresent(e) && WellFormed(t, tagSize, c)
    ensures WellFormed(t, tagSize, ApplyElement(t, tagSize, c, e))
  {
    ElementKeepsScalars(t, tagSize, c, e);
    ElementKeepsEnums(t, tagSize, c, e);
  }

  lemma ElementKeepsScalars(t: Tables, tagSize: nat, c: Channel, e: Element)
    requires TextPresent(e) && ScalarsWellFormed(tagSize, c)
    ensures ScalarsWellFormed(tagSize, ApplyElement(t, tagSize, c, e))
  {
    if FieldOf(e.name) == ToneField {
      ToneSwitchCases(LeadingValue(e.text.value));
    }
  }

  lemma ElementKeepsEnums(t: Tables, tagSize: nat, c: Channel, e: Element)
    requires TextPresent(e) && EnumsWellFormed(t, c)
    ensures EnumsWellFormed(t, ApplyElement(t, tagSize, c, e))
  {
  }

  /** `v` is what a table element leaves in its field: the first index at
      or after `from` whose entry matches `s` ignoring case, or the previous
      value `prev` when no entry matches. */
  predicate FirstMatchOr(table: seq<string>, from: nat, s: string, prev: nat, v: nat) {
    || (v == prev && forall j :: from <= j < |table| ==> !SameIgnoringCase(table[j], s))
    || (&& from <= v < |table| && SameIgnoringCase(table[v], s)
        && forall j :: from <= j < v ==> !SameIgnoringCase(table[j], s))
  }

  /** The five table elements: `band`, `sql`, `dcs` and `scan` search their
      tables from index 1, `mode` from index 0; each sets only its own
      field. */
  lemma TableElements(t: Tables, tagSize: nat, c: Channel, e: Element)
    requires e.text.Some?
    ensures var r, s := ApplyElement(t, tagSize, c, e), e.text.value;
      && (FieldOf(e.name) == BandField ==>
            r == c.(band := r.band) && FirstMatchOr(t.bands, 1, s, c.band, r.band))
      && (FieldOf(e.name) == SqlField ==>
            r == c.(sql := r.sql) && FirstMatchOr(t.sqls, 1, s, c.sql, r.sql))
      && (FieldOf(e.name) == DcsField ==>
            r == c.(dcs := r.dcs) && FirstMatchOr(t.dcsCodes, 1, s, c.dcs, r.dcs))
      && (FieldOf(e.name) == ScanField ==>
            r == c.(scan := r.scan) && FirstMatchOr(t.scans, 1, s, c.scan, r.scan))
      && (FieldOf(e.name) == ModeField ==>
            r == c.(mode := r.mode) && FirstMatchOr(t.modes, 0, s, c.mode, r.mode))
  {
    var s := e.text.value;
    match FieldOf(e.name)
    case BandField => PickFirstMatch(t.bands, 1, s, c.band);
    case SqlField => PickFirstMatch(t.sqls, 1, s, c.sql);
    case DcsField => PickFirstMatch(t.dcsCodes, 1, s, c.dcs);
    case ScanField => PickFirstMatch(t.scans, 1, s, c.scan);
    case ModeField => PickFirstMatch(t.modes, 0, s, c.mode);
    case _ =>
  }

  lemma PickFirstMatch(table: seq<string>, from: nat, s: string, prev: nat)
    ensures FirstMatchOr(table, from, s, prev, Pick(Lookup(table, from, s), prev))
  {
  }

  /** The value elements: `frequency` and `txFrequency` set their frequency
      to the decimal read, `tone` sets the tone switch's index of the number
      read, and `power` sets the keyword's level or keeps the old one. Each
      sets only its own field. */
  lemma ValueElements(t: Tables, tagSize: nat, c: Channel, e: Element)
    requires e.text.Some?
    ensures var r, s := ApplyElement(t, tagSize, c, e), e.text.value;
      && (FieldOf(e.name) == FrequencyField ==> r == c.(rx := Thousandths(s)))
      && (FieldOf(e.name) == TxFrequencyField ==> r == c.(tx := Thousandths(s)))
      && (FieldOf(e.name) == ToneField ==> r == c.(tone := ToneIndex(LeadingValue(s))))
      && (FieldOf(e.name) == PowerField ==>
            r == c.(power := r.power)
            && (forall p: nat :: p < 3 && SameIgnoringCase(s, PowerNames[p]) ==> r.power == p)
            && ((forall p: nat :: p < 3 ==> !SameIgnoringCase(s, PowerNames[p])) ==> r.power == c.power))
      && (FieldOf(e.name) == OtherField ==> r == c)
  {
    var s := e.text.value;
    if FieldOf(e.name) == PowerField {
      forall p: nat | p < 3 && SameIgnoringCase(s, PowerNames[p])
        ensures ApplyElement(t, tagSize, c, e).power == p
      {
        PowerKeywords(s, p);
      }
      if PowerLevel(s).Some? {
        PowerKeywords(s, PowerLevel(s).value);
      }
    }
  }

  lemma {:induction false} AllKeepWellFormed(t: Tables, tagSize: nat, c: Channel, es: seq<Element>)
    requires AllTextPresent(es) && WellFormed(t, tagSize, c)
    ensures WellFormed(t, tagSize, ApplyAll(t, tagSize, c, es))
    decreases |es|
  {
    if |es| > 0 {
      ElementKeepsWellFormed(t, tagSize, c, es[0]);
      AllKeepWellFormed(t, tagSize, ApplyElement(t, tagSize, c, es[0]), es[1..]);
    }
  }

  /** Every parsed channel is well formed, and a shifted one has an
      offset. */
  lemma ParsedChannelWellFormed(t: Tables, tagSize: nat, n: ChannelNode)
    requires AllTextPresent(n.children)
    ensures WellFormed(t, tagSize, ParseChannel(t, tagSize, n))
    ensures ParseChannel(t, tagSize, n).duplex != 0 ==> ParseChannel(t, tagSize, n).offset != 0
  {
    AllKeepWellFormed(t, tagSize, FromAttributes(n), n.children);
  }

  lemma {:induction false} ApplyAllAppend(t: Tables, tagSize: nat, c: Channel, a: seq<Element>, b: seq<Element>)
    requires AllTextPresent(a) && AllTextPresent(b)
    ensures AllTextPresent(a + b)
    ensures ApplyAll(t, tagSize, c, a + b) == ApplyAll(t, tagSize, ApplyAll(t, tagSize, c, a), b)
    decreases |a|
  {
    if |a| > 0 {
      assert (a + b)[1..] == a[1..] + b;
      ApplyAllAppend(t, tagSize, ApplyElement(t, tagSize, c, a[0]), a[1..], b);
    } else {
      assert a + b == b;
    }
  }

  /** Two child elements are applied one after the other. */
  lemma ApplyPair(t: Tables, tagSize: nat, c: Channel, e1: Element, e2: Element)
    requires TextPresent(e1) && TextPresent(e2)
    ensures AllTextPresent([e1, e2])
    ensures ApplyAll(t, tagSize, c, [e1, e2]) == ApplyElement(t, tagSize, ApplyElement(t, tagSize, c, e1), e2)
  {
    var c1 := ApplyElement(t, tagSize, c, e1);
    assert [e1, e2][1..] == [e2];
    assert ApplyAll(t, tagSize, c, [e1, e2]) == ApplyAll(t, tagSize, c1, [e2]);
    assert [e2][1..] == [];
    assert ApplyAll(t, tagSize, c1, [e2]) == ApplyAll(t, tagSize, ApplyElement(t, tagSize, c1, e2), []);
  }

  /** A `tag` element with text. */
  predicate IsTag(e: Element) {
    FieldOf(e.name) == TagField && e.text.Some?
  }

  /** Once the tag is non-empty only a `tag` element changes it: `name`
      elements are ignored. */
  lemma {:induction false} TagStable(t: Tables, tagSize: nat, c: Channel, es: seq<Element>)
    requires AllTextPresent(es) && |c.tag| > 0
    requires forall i :: 0 <= i < |es| ==> !IsTag(es[i])
    ensures ApplyAll(t, tagSize, c, es).tag == c.tag
    decreases |es|
  {
    if |es| > 0 {
      TagStable(t, tagSize, ApplyElement(t, tagSize, c, es[0]), es[1..]);
    }
  }

  /** A `tag` element overrides any `name` before it and is not overridden
      by one after it: the last non-empty `tag` gives the display name. */
  lemma TagTakesPrecedence(t: Tables, tagSize: nat, c: Channel, before: seq<Element>, text: string, after: seq<Element>)
    requires AllTextPresent(before) && AllTextPresent(after)
    requires forall i :: 0 <= i < |after| ==> !IsTag(after[i])
    requires |Truncate(text, tagSize)| > 0
    ensures AllTextPresent(before + [Element("tag", Some(text))] + after)
    ensures ApplyAll(t, tagSize, c, before + [Element("tag", Some(text))] + after).tag == Truncate(text, tagSize)
  {
    var e := Element("tag", Some(text));
    ApplyAllAppend(t, tagSize, c, before, [e]);
    ApplyAllAppend(t, tagSize, c, before + [e], after);
    var c1 := ApplyAll(t, tagSize, c, before + [e]);
    assert c1.tag == Truncate(text, tagSize) by {
      assert [e][1..] == [];
    }
    TagStable(t, tagSize, c1, after);
  }

  /** The first `name` whose kept text is non-empty. */
  function FirstName(es: seq<Element>, tagSize: nat): string {
    if |es| == 0 then ""
    else if FieldOf(es[0].name) == NameField && es[0].text.Some? && |Truncate(es[0].text.value, tagSize)| > 0 then
      Truncate(es[0].text.value, tagSize)
    else FirstName(es[1..], tagSize)
  }

  /** Without `tag` elements, the display name is the first non-empty
      `name`, cut to the tag width. */
  lemma {:induction false} FirstNameWins(t: Tables, tagSize: nat, c: Channel, es: seq<Element>)
    requires AllTextPresent(es) && c.tag == ""
    requires forall i :: 0 <= i < |es| ==> !IsTag(es[i])
    ensures ApplyAll(t, tagSize, c, es).tag == FirstName(es, tagSize)
    decreases |es|
  {
    if |es| > 0 {
      var c1 := ApplyElement(t, tagSize, c, es[0]);
      if |c1.tag| > 0 {
        TagStable(t, tagSize, c1, es[1..]);
      } else {
        FirstNameWins(t, tagSize, c1, es[1..]);
      }
    }
  }

  /** A signed offset: the sign gives the direction and the rest is read as
      a decimal number of megahertz. An unsigned number means `+`. */
  lemma OffsetSign(c: Channel, sign: string, ip: string, fp: string)
    requires sign == "" || sign == "+" || sign == "-"
    requires AllDigits(ip) && AllDigits(fp) && |fp| <= 3
    ensures var r := ApplyOffset(c, sign + ip + "." + fp);
      && r.duplex == (if sign == "-" then -1 else 1)
      && r.offset == Value(ip) * 1000 + Value(fp) * Scale(|fp|)
      && r.(duplex := c.duplex, offset := c.offset) == c
  {
    var n := ip + "." + fp;
    ThousandthsOfDecimal(ip, fp);
    UnsignedText(ip, fp);
    assert sign + ip + "." + fp == sign + n;
    if sign == "" {
      assert sign + n == n;
      UnsignedOffset(c, n);
    } else {
      assert sign + n == [sign[0]] + n;
      SignedOffset(c, sign[0], n);
    }
  }

  /** A decimal number does not start with a sign. */
  lemma UnsignedText(ip: string, fp: string)
    requires AllDigits(ip)
    ensures var n := ip + "." + fp; |n| > 0 && n[0] != '+' && n[0] != '-'
  {
    var n := ip + "." + fp;
    if |ip| > 0 {
      assert n[0] == ip[0];
    } else {
      assert n[0] == '.';
    }
  }

  lemma UnsignedOffset(c: Channel, n: string)
    requires |n| > 0 && n[0] != '+' && n[0] != '-'
    ensures ApplyOffset(c, n) == c.(duplex := 1, offset := Thousandths(n))
  {
  }

  lemma SignedOffset(c: Channel, sign: char, n: string)
    requires sign == '+' || sign == '-'
    requires |n| > 0
    ensures ApplyOffset(c, [sign] + n) == c.(duplex := if sign == '-' then -1 else 1, offset := Thousandths(n))
  {
    var s := [sign] + n;
    assert s != "+" && s != "-" by {
      assert |s| == |n| + 1 > 1;
    }
    assert s[0] == sign && s[1..] == n;
  }

  /** A bare `+` or `-` sets only the direction; a number read earlier
      stays. */
  lemma BareSign(c: Channel, s: string)
    requires s == "+" || s == "-"
    ensures ApplyOffset(c, s) == c.(duplex := if s == "-" then -1 else 1)
  {
  }

  /** The common repeater case: a channel element whose children are
      `146.520` and a bare `+` gets the 5000 kHz default (the threshold
      compares the kHz value with 300), which packs to 100 steps of 50 kHz,
      0x64. */
  lemma RepeaterDefaultOffset(t: Tables, tagSize: nat, n: ChannelNode)
    requires n.children == [Element("frequency", Some("146.520")), Element("offset", Some("+"))]
    ensures AllTextPresent(n.children)
    ensures var c := ParseChannel(t, tagSize, n);
      && c.rx == 146520 && c.duplex == 1 && c.offset == 5000 && c.offset / 50 == 0x64
  {
    var e1, e2 := Element("frequency", Some("146.520")), Element("offset", Some("+"));
    assert FieldOf(e1.name) == FrequencyField && FieldOf(e2.name) == OffsetField;
    assert Thousandths(e1.text.value) == 146520 by {
      SimplexFrequency();
    }
    ApplyPair(t, tagSize, FromAttributes(n), e1, e2);
    var c0 := FromAttributes(n);
    var c1 := ApplyElement(t, tagSize, c0, e1);
    BareSign(c1, "+");
  }
}
