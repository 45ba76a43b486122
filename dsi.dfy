/**
 * Command frames sent to the JDI 1080p panel over the MIPI-DSI command channel,
 * and the vendor initialisation table that jdi_panel_init replays.
 *
 * A frame records what the driver hands to the DSI layer: whether it is a
 * generic write (mipi_dsi_generic_write) or a Display Command Set write
 * (mipi_dsi_dcs_write_buffer), the payload bytes, and the explicit length
 * argument passed with them. The packet header chosen by the DSI layer is not
 * part of the model.
 */
module Dsi {

  type byte = x: int | 0 <= x < 256

  datatype FrameKind = Generic | Dcs

  datatype Frame = Frame(kind: FrameKind, payload: seq<byte>, len: nat)

  /** The length argument agrees with the bytes actually supplied. */
  predicate WellFormed(f: Frame) {
    f.len == |f.payload| && f.len > 0
  }

  // Opcodes of the MIPI Display Command Set used by the driver.
  const SOFT_RESET: byte := 0x01
  const ENTER_SLEEP_MODE: byte := 0x10
  const EXIT_SLEEP_MODE: byte := 0x11
  const SET_DISPLAY_OFF: byte := 0x28
  const SET_DISPLAY_ON: byte := 0x29
  const SET_ADDRESS_MODE: byte := 0x36

  /** A parameterless DCS command, as the mipi_dsi_dcs_* helpers send it. */
  function DcsCommand(op: byte): (f: Frame)
    ensures WellFormed(f) && f.kind == Dcs
    ensures |f.payload| == 1 && f.payload[0] == op
  {
    Frame(Dcs, [op], 1)
  }

  const SoftReset := DcsCommand(SOFT_RESET)
  const DisplayOn := DcsCommand(SET_DISPLAY_ON)
  const DisplayOff := DcsCommand(SET_DISPLAY_OFF)
  const EnterSleep := DcsCommand(ENTER_SLEEP_MODE)

  /** The twenty frames jdi_panel_init sends after the soft reset, in order. */
  const InitTable: seq<Frame> := [
    Frame(Generic, [0xb0, 0x04], 2),
    Frame(Dcs, [0x00, 0x00], 2),
    Frame(Dcs, [0x00, 0x00], 2),
    Frame(Generic, [0xb3, 0x14, 0x00, 0x00, 0x00, 0x00, 0x00], 7),
    Frame(Generic, [0xb6, 0x3a, 0xd3], 3),
    Frame(Generic, [0xc1,
                    0x84, 0x60, 0x50, 0x00, 0x00, 0x00,
                    0x00, 0x00, 0x00, 0x0c, 0x01, 0x58,
                    0x73, 0xae, 0x31, 0x20, 0x06, 0x00,
                    0x00, 0x00, 0x00, 0x00, 0x00, 0x10,
                    0x10, 0x10, 0x10, 0x00, 0x00, 0x00,
                    0x22, 0x02, 0x02, 0x00], 35),
    Frame(Generic, [0xc2,
                    0x30, 0xf7, 0x80, 0x0a, 0x08, 0x00,
                    0x00], 8),
    Frame(Generic, [0xc4,
                    0x70, 0x00, 0x00, 0x00, 0x00, 0x04,
                    0x00, 0x00, 0x00, 0x11, 0x06, 0x00,
                    0x00, 0x00, 0x00, 0x00, 0x04, 0x00,
                    0x00, 0x00, 0x11, 0x06], 23),
    Frame(Generic, [0xc6,
                    0x06, 0x6d, 0x06, 0x6d, 0x06, 0x6d,
                    0x00, 0x00, 0x00, 0x00, 0x06, 0x6d,
                    0x06, 0x6d, 0x06, 0x6d, 0x15, 0x19,
                    0x07, 0x00, 0x01, 0x06, 0x6d, 0x06,
                    0x6d, 0x06, 0x6d, 0x00, 0x00, 0x00,
                    0x00, 0x06, 0x6d, 0x06, 0x6d, 0x06,
                    0x6d, 0x15, 0x19, 0x07], 41),
    Frame(Generic, [0xc7,
                    0x00, 0x09, 0x14, 0x26, 0x32, 0x49,
                    0x3b, 0x52, 0x5f, 0x67, 0x6b, 0x70,
                    0x00, 0x09, 0x14, 0x26, 0x32, 0x49,
                    0x3b, 0x52, 0x5f, 0x67, 0x6b, 0x70], 25),
    Frame(Generic, [0xc8,
                    0x00, 0x09, 0x14, 0x26, 0x32, 0x49,
                    0x3b, 0x52, 0x5f, 0x67, 0x6b, 0x70,
                    0x00, 0x09, 0x14, 0x26, 0x32, 0x49,
                    0x3b, 0x52, 0x5f, 0x67, 0x6b, 0x70], 25),
    Frame(Generic, [0xc9,
                    0x00, 0x09, 0x14, 0x26, 0x32, 0x49,
                    0x3b, 0x52, 0x5f, 0x67, 0x6b, 0x70,
                    0x00, 0x09, 0x14, 0x26, 0x32, 0x49,
                    0x3b, 0x52, 0x5f, 0x67, 0x6b, 0x70], 25),
    Frame(Generic, [0xcc, 0x09], 2),
    Frame(Generic, [0xd0,
                    0x00, 0x00, 0x19, 0x18, 0x99, 0x99,
                    0x19, 0x01, 0x89, 0x00, 0x55, 0x19,
                    0x99, 0x01], 15),
    Frame(Generic, [0xd3,
                    0x1b, 0x33, 0xbb, 0xcc, 0xc4, 0x33,
                    0x33, 0x33, 0x00, 0x01, 0x00, 0xa0,
                    0xd8, 0xa0, 0x0d, 0x37, 0x33, 0x44,
                    0x22, 0x70, 0x02, 0x37, 0x03, 0x3d,
                    0xbf, 0x00], 27),
    Frame(Generic, [0xd5,
                    0x06, 0x00, 0x00, 0x01, 0x4a, 0x01,
                    0x4a], 8),
    Frame(Generic, [0xd5, 0x06, 0x00, 0x00, 0x01, 0x4a,
                    0x01, 0x4a], 8),
    Frame(Dcs, [SET_ADDRESS_MODE, 0xc0], 2),
    Frame(Dcs, [SET_DISPLAY_ON, 0x00], 2),
    Frame(Dcs, [EXIT_SLEEP_MODE, 0x00], 2)
  ]

  /** The leading byte of each frame: the register (generic) or opcode (DCS). */
  function Heads(fs: seq<Frame>): (r: seq<byte>)
    requires forall i :: 0 <= i < |fs| ==> |fs[i].payload| > 0
    ensures |r| == |fs|
    ensures forall i :: 0 <= i < |fs| ==> r[i] == fs[i].payload[0]
  {
    if fs == [] then [] else [fs[0].payload[0]] + Heads(fs[1..])
  }

  function Kinds(fs: seq<Frame>): (r: seq<FrameKind>)
    ensures |r| == |fs|
    ensures forall i :: 0 <= i < |fs| ==> r[i] == fs[i].kind
  {
    if fs == [] then [] else [fs[0].kind] + Kinds(fs[1..])
  }

  /** Every frame of the table passes a length argument equal to its byte count. */
  lemma InitTableWellFormed()
    ensures |InitTable| == 20
    ensures forall i :: 0 <= i < |InitTable| ==> WellFormed(InitTable[i])
  {
  }

  /** The registers and opcodes addressed by the table, in the source order. */
  const InitHeads: seq<byte> := [0xb0, 0x00, 0x00, 0xb3, 0xb6, 0xc1, 0xc2, 0xc4, 0xc6, 0xc7,
                                 0xc8, 0xc9, 0xcc, 0xd0, 0xd3, 0xd5, 0xd5, 0x36, 0x29, 0x11]

  /** The framing of each table entry, in the source order. */
  const InitKinds: seq<FrameKind> :=
    [Generic, Dcs, Dcs, Generic, Generic, Generic, Generic, Generic, Generic, Generic,
     Generic, Generic, Generic, Generic, Generic, Generic, Generic, Dcs, Dcs, Dcs]

  /** The table addresses b0, 00, 00, b3, ..., 36, 29, 11, in that order. */
  lemma InitTableHeads()
    ensures Heads(InitTable) == InitHeads
  {
    InitTableWellFormed();
    assert forall i :: 0 <= i < 20 ==> InitTable[i].payload[0] == InitHeads[i];
  }

  /**
   * Generic writes program the vendor registers; DCS writes carry the two zero
   * frames and set-address-mode, display-on and exit-sleep at the end. The
   * gamma-timing frame 0xd5 is sent twice, identically.
   */
  lemma InitTableFraming()
    ensures Kinds(InitTable) == InitKinds
    ensures InitTable[15] == InitTable[16]
  {
    assert forall i :: 0 <= i < 20 ==> InitTable[i].kind == InitKinds[i];
  }
}
