/**
 The PIIX3 PCI-to-ISA bridge (Intel 82371SB): the identification bytes it
 writes when it is created, and the reset values of its chipset registers,
 including the four link-route registers PIRQRC[A:D], which reset to
 "routing disabled".
 */
module Piix3 {
  import opened ConfigSpace
  import LinkRoute

  /** The identification bytes of the ISA bridge, as a declarative table. */
  const IsaIdentity: Table := map[
    0x00 := 0x86, 0x01 := 0x80,   // vendor 0x8086 (Intel)
    0x02 := 0x00, 0x03 := 0x70,   // device 0x7000 (82371SB PIIX3, step A1)
    0x0a := 0x01, 0x0b := 0x06,   // class 0x0601: PCI-to-ISA bridge
    0x0e := 0x80                  // header type: multi-function
  ]

  /** The reset values of the ISA bridge's registers, as a declarative table. */
  const ResetTable: Table := map[
    0x04 := 0x07,                 // command: I/O, memory and bus master enabled
    0x07 := 0x02,                 // status: medium DEVSEL timing
    0x4c := 0x4d,
    0x4e := 0x03,
    0x60 := 0x80, 0x61 := 0x80,   // PIRQRC[A:D]: every link disabled
    0x62 := 0x80, 0x63 := 0x80,
    0x69 := 0x02,
    0x70 := 0x80,
    0x76 := 0x0c, 0x77 := 0x0c,
    0x78 := 0x02,
    0xa0 := 0x08,
    0xa8 := 0x0f
  ]

  /** The reset routine: its byte stores in the order it makes them (0xa0 is
      stored twice, with the same value). Equal to overlaying the reset
      table, and so independent of everything the guest wrote to those
      registers before. */
  function Piix3Reset(c: seq<Byte>): (r: seq<Byte>)
    requires IsConfigSpace(c)
    ensures IsConfigSpace(r)
    ensures r == Overlay(c, ResetTable)
    ensures forall o :: LinkRoute.InRouteBlock(o) ==> r[o] & LinkRoute.RouteDisable != 0
  {
    var r := c[0x04 := 0x07][0x07 := 0x02]
              [0x4c := 0x4d][0x4e := 0x03]
              [0x60 := 0x80][0x61 := 0x80][0x62 := 0x80][0x63 := 0x80]
              [0x69 := 0x02][0x70 := 0x80]
              [0x76 := 0x0c][0x77 := 0x0c][0x78 := 0x02]
              [0xa0 := 0x08][0xa0 := 0x08]
              [0xa8 := 0x0f];
    assert forall o :: 0 <= o < ConfigSize ==> r[o] == Overlay(c, ResetTable)[o];
    r
  }

  /** Resetting twice leaves the same registers as resetting once. */
  lemma Piix3ResetIdempotent(c: seq<Byte>)
    requires IsConfigSpace(c)
    ensures Piix3Reset(Piix3Reset(c)) == Piix3Reset(c)
  {
    OverlayIdempotent(c, ResetTable);
  }

  /** Reset touches no identification byte of the ISA bridge. */
  lemma Piix3ResetKeepsIdentity(c: seq<Byte>)
    requires IsConfigSpace(c)
    ensures forall o :: o in IsaIdentity ==> o < ConfigSize && Piix3Reset(c)[o] == c[o]
  {
  }

  /** Right after reset the hypervisor view of every link is "no IRQ": the
      filter would report IRQ 0 for each reset link-route byte. */
  lemma Piix3ResetRoutesNone(c: seq<Byte>)
    requires IsConfigSpace(c)
    ensures forall o :: LinkRoute.InRouteBlock(o) ==> LinkRoute.NormaliseRoute(Piix3Reset(c)[o]) == 0
  {
    var r := Piix3Reset(c);
    forall o | LinkRoute.InRouteBlock(o)
      ensures LinkRoute.NormaliseRoute(r[o]) == 0
    {
      assert r[o] == 0x80;
    }
  }

  /** The identification stores of device creation, in the order made. */
  function Piix3Identify(c: seq<Byte>): (r: seq<Byte>)
    requires IsConfigSpace(c)
    ensures r == Overlay(c, IsaIdentity)
  {
    var r := c[0x00 := 0x86][0x01 := 0x80]
              [0x02 := 0x00][0x03 := 0x70]
              [0x0a := 0x01][0x0b := 0x06]
              [0x0e := 0x80];
    assert forall o :: 0 <= o < ConfigSize ==> r[o] == Overlay(c, IsaIdentity)[o];
    r
  }

  /** The config-space part of creating the ISA bridge: identity, then reset,
      over the space the device registry allocated. */
  function Piix3Init(c: seq<Byte>): (r: seq<Byte>)
    requires IsConfigSpace(c)
    ensures IsConfigSpace(r)
    ensures r == Overlay(Overlay(c, IsaIdentity), ResetTable)
  {
    Piix3Reset(Piix3Identify(c))
  }

  /** A created ISA bridge enumerates as an Intel 82371SB PIIX3, class
      PCI-to-ISA bridge, in a multi-function device. */
  lemma Piix3InitIdentity(c: seq<Byte>)
    requires IsConfigSpace(c)
    ensures Word16(Piix3Init(c), VendorIdOffset) == 0x8086
    ensures Word16(Piix3Init(c), DeviceIdOffset) == 0x7000
    ensures ClassCode(Piix3Init(c)) == 0x0601
    ensures IsMultiFunction(Piix3Init(c))
  {
    var identified := Piix3Identify(c);
    var r := Piix3Init(c);
    Piix3ResetKeepsIdentity(identified);
    assert r[0x00] == 0x86 && r[0x01] == 0x80;
    assert r[0x02] == 0x00 && r[0x03] == 0x70;
    assert r[0x0a] == 0x01 && r[0x0b] == 0x06;
    assert r[0x0e] == 0x80;
  }

  /** A reset of a freshly created ISA bridge changes nothing: creation
      already leaves it in its reset state, identity included. */
  lemma Piix3InitIsReset(c: seq<Byte>)
    requires IsConfigSpace(c)
    ensures Piix3Reset(Piix3Init(c)) == Piix3Init(c)
  {
    OverlayIdempotent(Piix3Identify(c), ResetTable);
  }
}
