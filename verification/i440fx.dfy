/**
 The i440FX host bridge: its 32-bit configuration-address latch (the register
 behind port 0xCF8) and the identification bytes it writes into its own
 configuration space when the bus is created.
 */
module I440fx {
  import opened ConfigSpace

  /** The host bridge's own state: the last value written to the address port. */
  datatype HostState = HostState(configReg: bv32)

  /** The address port's read handler: the latch, whatever port offset was used. */
  function AddrReadl(s: HostState, port: bv32): bv32
  {
    s.configReg
  }

  /** The address port's write handler: the value is latched verbatim,
      with no decoding, masking or dependence on the previous latch. */
  function AddrWritel(s: HostState, port: bv32, val: bv32): (r: HostState)
    ensures forall readPort :: AddrReadl(r, readPort) == val
  {
    HostState(val)
  }

  /** The latch after a write depends on the written value alone: not on the
      previous latch and not on which port offset was used. */
  lemma AddrWriteIgnoresHistory(s: HostState, t: HostState, p1: bv32, p2: bv32, val: bv32)
    ensures AddrWritel(s, p1, val) == AddrWritel(t, p2, val)
  {
  }

  /** A later address write completely hides an earlier one. */
  lemma AddrLastWriteWins(s: HostState, p1: bv32, v1: bv32, p2: bv32, v2: bv32)
    ensures AddrWritel(AddrWritel(s, p1, v1), p2, v2) == AddrWritel(s, p2, v2)
  {
  }

  /** Writing back the value just read leaves the host bridge unchanged. */
  lemma AddrWriteReadBack(s: HostState, p1: bv32, p2: bv32)
    ensures AddrWritel(s, p1, AddrReadl(s, p2)) == s
  {
  }

  /** The identification bytes of the host bridge, as a declarative table. */
  const HostIdentity: Table := map[
    0x00 := 0x86, 0x01 := 0x80,   // vendor 0x8086 (Intel)
    0x02 := 0x37, 0x03 := 0x12,   // device 0x1237 (82441FX)
    0x08 := 0x02,                 // revision
    0x0a := 0x00, 0x0b := 0x06,   // class 0x0600: host bridge
    0x0e := 0x00                  // header type: single function
  ]

  /** The config-space part of bus creation: the identity bytes stored one by
      one into the space the device registry allocated for the host bridge. */
  function I440fxInit(c: seq<Byte>): (r: seq<Byte>)
    requires IsConfigSpace(c)
    ensures IsConfigSpace(r)
    ensures r == Overlay(c, HostIdentity)
  {
    var r := c[0x00 := 0x86][0x01 := 0x80]
              [0x02 := 0x37][0x03 := 0x12]
              [0x08 := 0x02]
              [0x0a := 0x00][0x0b := 0x06]
              [0x0e := 0x00];
    assert forall o :: 0 <= o < ConfigSize ==> r[o] == Overlay(c, HostIdentity)[o];
    r
  }

  /** A created host bridge enumerates as an Intel 82441FX, revision 2,
      class host bridge, in a single-function device. */
  lemma I440fxInitIdentity(c: seq<Byte>)
    requires IsConfigSpace(c)
    ensures Word16(I440fxInit(c), VendorIdOffset) == 0x8086
    ensures Word16(I440fxInit(c), DeviceIdOffset) == 0x1237
    ensures I440fxInit(c)[RevisionOffset] == 0x02
    ensures ClassCode(I440fxInit(c)) == 0x0600
    ensures !IsMultiFunction(I440fxInit(c))
  {
    var r := I440fxInit(c);
    assert r[0x00] == 0x86 && r[0x01] == 0x80;
    assert r[0x02] == 0x37 && r[0x03] == 0x12;
    assert r[0x0a] == 0x00 && r[0x0b] == 0x06;
    assert r[0x0e] == 0x00;
  }

  /** Creating the bus twice over the same space gives the same identity. */
  lemma I440fxInitIdempotent(c: seq<Byte>)
    requires IsConfigSpace(c)
    ensures I440fxInit(I440fxInit(c)) == I440fxInit(c)
  {
    OverlayIdempotent(c, HostIdentity);
  }
}
