/** The logical channel: what the document walk extracts for one `channel`
    element and the record packer consumes. */
module Channels {

  datatype Option<+T> = None | Some(value: T)

  /** Frequencies and the repeater offset are in thousandths of a megahertz
      (kHz): `146.520` is `146520`. `duplex` is `+1`, `-1` or `0`; `band`
      is `0` when it is to be inferred from `rx`; the small enumerations are
      indices into the device's lookup tables. */
  datatype Channel = Channel(
    memname: string,
    bank: nat,
    slot: nat,
    rx: nat,
    tx: nat,
    duplex: int,
    offset: nat,
    band: nat,
    mode: nat,
    sql: nat,
    tone: nat,
    dcs: nat,
    scan: nat,
    power: nat,
    tag: string)

  /** A freshly constructed channel: every field zero or empty. */
  const Blank: Channel := Channel("", 0, 0, 0, 0, 0, 0, 0, 0, 0, 0, 0, 0, 0, "")
}
