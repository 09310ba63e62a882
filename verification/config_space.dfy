/**
 The 256-byte configuration space every PCI function exposes, and the
 declarative form of the fixed register tables the two bridge devices write
 into it. A table is a map from config offset to the byte stored there;
 `Overlay` applies one to a config space and leaves every other offset alone.
 */
module ConfigSpace {

  type Byte = bv8

  /** Size in bytes of one function's configuration space. */
  const ConfigSize: nat := 256

  /** Offsets of the identification registers of the standard PCI header. */
  const VendorIdOffset: nat := 0x00
  const DeviceIdOffset: nat := 0x02
  const RevisionOffset: nat := 0x08
  const ClassCodeOffset: nat := 0x0a
  const HeaderTypeOffset: nat := 0x0e

  predicate IsConfigSpace(c: seq<Byte>) {
    |c| == ConfigSize
  }

  /** A table of fixed register values: offset to byte. */
  type Table = map<nat, Byte>

  /** The config space `c` with every offset named by `t` set to its table value. */
  function Overlay(c: seq<Byte>, t: Table): (r: seq<Byte>)
    requires IsConfigSpace(c)
    ensures IsConfigSpace(r)
  {
    seq(ConfigSize, o requires 0 <= o < ConfigSize => if o in t then t[o] else c[o])
  }

  /** Applying the same table twice is the same as applying it once. */
  lemma OverlayIdempotent(c: seq<Byte>, t: Table)
    requires IsConfigSpace(c)
    ensures Overlay(Overlay(c, t), t) == Overlay(c, t)
  {
    var once := Overlay(c, t);
    var twice := Overlay(once, t);
    assert forall o :: 0 <= o < ConfigSize ==> twice[o] == once[o];
  }

  /** The little-endian 16-bit register at `off`, as the PCI header stores it. */
  function Word16(c: seq<Byte>, off: nat): (w: nat)
    requires off + 1 < |c|
    ensures w < 0x1_0000
  {
    c[off] as nat + 0x100 * c[off + 1] as nat
  }

  /** The 16-bit class code: sub-class byte low, base-class byte high. */
  function ClassCode(c: seq<Byte>): nat
    requires IsConfigSpace(c)
  {
    Word16(c, ClassCodeOffset)
  }

  /** Bit 7 of the header-type byte marks a multi-function device. */
  predicate IsMultiFunction(c: seq<Byte>)
    requires IsConfigSpace(c)
  {
    c[HeaderTypeOffset] & 0x80 != 0
  }
}
