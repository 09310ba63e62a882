# i440FX / PIIX3 PCI bridge emulation: a Dafny model

This project models the configuration-space core of the QEMU device model's
i440FX host bridge and PIIX3 PCI-to-ISA bridge, as used by Xen HVM guests
(`tools/ioemu/target-i386-dm/piix_pci-dm.c`). It covers four things:

- the host bridge's configuration-address latch (port 0xCF8);
- the identification bytes each bridge writes into its 256-byte
  configuration space when it is created;
- the PIIX3 reset values;
- the PIIX3 config-write filter. This filter turns guest writes to the
  link-route registers PIRQRC[A:D] (offsets 0x60-0x63 of the Intel 82371SB)
  into hypervisor route updates. Then it hands the write to the default
  config-space writer.

Modules, one per part of the source file:

- `ConfigSpace` (`config_space.dfy`): bytes (`bv8`), the 256-byte
  configuration space as `seq<bv8>`, and `Overlay`. A fixed register table is
  a map from offset to byte, and `Overlay` applies one to a configuration
  space.
- `I440fx` (`i440fx.dfy`): the address latch and the host bridge's identity
  bytes.
- `Piix3` (`piix3.dfy`): the ISA bridge's identity bytes, its reset routine
  and its creation.
- `LinkRoute` (`link_route.dfy`): the write filter, as a pure function from
  a write `(address, val, len)` to a pair. The first part is the sequence of
  route updates `(link, irq)`, in the order they are issued. The second part
  is the write passed on to the default writer.

Each sequence of byte stores in the source is modelled as written, in the
same order. This includes the PIIX3 reset storing 0xa0 twice. Each one is
proved equal to overlaying a declarative table. Idempotence and "every other
offset unchanged" are then proved from that table.

Integer widths: `val` is a `bv32`. `address` is a 32-bit unsigned integer,
and lane offsets are computed modulo 2^32 as in the C code.
`LinkRoute.LaneOffsetNoWrap` shows that the wrap never reaches 0x60-0x63.

Two behaviours of the code are worth stating plainly:

- The filter issues one route update for every written byte in 0x60-0x63,
  whether or not the register's value changes (piix_pci-dm.c:93-99).
- The filter ignores the result of `xc_hvm_set_pci_link_route` and always
  goes on to `pci_default_write_config` (lines 99, 103), so the model has no
  failure path.

## Model

| member | source | states |
|---|---|---|
| I440fx.AddrWritel | tools/ioemu/target-i386-dm/piix_pci-dm.c:31-41 | after a write to the address port, a read from it at any port offset returns exactly the written value: no decoding or masking |
| I440fx.AddrWriteIgnoresHistory | tools/ioemu/target-i386-dm/piix_pci-dm.c:31-35 | the latch after a write depends only on the written value, not on the previous latch or the port offset |
| I440fx.AddrLastWriteWins | tools/ioemu/target-i386-dm/piix_pci-dm.c:31-35 | a second address write completely hides the first |
| I440fx.AddrWriteReadBack | tools/ioemu/target-i386-dm/piix_pci-dm.c:31-41 | writing back the value just read leaves the host bridge unchanged |
| I440fx.I440fxInit | tools/ioemu/target-i386-dm/piix_pci-dm.c:72-79 | the identity stores equal overlaying the host identity table: those eight offsets get their table bytes and every other offset is unchanged |
| I440fx.I440fxInitIdentity | tools/ioemu/target-i386-dm/piix_pci-dm.c:72-79 | the host bridge reads back vendor 0x8086, device 0x1237, revision 0x02, class 0x0600, and a header type without the multi-function bit |
| I440fx.I440fxInitIdempotent | tools/ioemu/target-i386-dm/piix_pci-dm.c:72-79 | storing the host identity twice gives the same space as storing it once |
| LinkRoute.LanesRoundTrip | tools/ioemu/target-i386-dm/piix_pci-dm.c:94 | the four byte lanes extracted as `(val >> 8*i) & 0xff`, packed back little-endian, give `val` again |
| LinkRoute.LaneByteIsShift | tools/ioemu/target-i386-dm/piix_pci-dm.c:94 | byte lane i is the value shifted right by the variable amount `8*i` and masked to its low byte, as the loop computes it |
| LinkRoute.NormaliseRoute | tools/ioemu/target-i386-dm/piix_pci-dm.c:94-97 | the IRQ sent for a route byte is always in 0..15 |
| LinkRoute.NormaliseRouteValue | tools/ioemu/target-i386-dm/piix_pci-dm.c:95-97 | the IRQ sent is 0 when the byte has its disable bit (0x80) set, and the byte modulo 16 otherwise |
| LinkRoute.LaneOffsetNoWrap | tools/ioemu/target-i386-dm/piix_pci-dm.c:98-99 | the 32-bit lane offset is in 0x60-0x63 exactly when the unbounded `address+i` is, and then equals it |
| LinkRoute.ScanLanes | tools/ioemu/target-i386-dm/piix_pci-dm.c:93-100 | the loop over lanes 0..n-1 issues at most n updates, each with a link in 0..3 and an IRQ in 0..15 |
| LinkRoute.WriteConfig | tools/ioemu/target-i386-dm/piix_pci-dm.c:87-104 | the filter passes the original, unnormalised `(address, val, len)` to the default writer, and every update it issues has link 0..3 and IRQ 0..15 |
| LinkRoute.ScanLanesCount | tools/ioemu/target-i386-dm/piix_pci-dm.c:93-99 | the number of updates equals the number of bytes of `[address, address+len)` that lie in 0x60-0x63 |
| LinkRoute.ScanLanesAt | tools/ioemu/target-i386-dm/piix_pci-dm.c:93-99 | a lane in 0x60-0x63 issues its update, `(address+i-0x60, normalised byte i)`, right after the updates of the earlier lanes in the block |
| LinkRoute.WriteConfigRouteAt | tools/ioemu/target-i386-dm/piix_pci-dm.c:93-99 | the k-th update issued belongs to the k-th lane of the write that lies in 0x60-0x63, and carries that lane's link and normalised byte |
| LinkRoute.WriteConfigRoutes | tools/ioemu/target-i386-dm/piix_pci-dm.c:87-104 | the updates are exactly one per lane in 0x60-0x63, in lane order, and the write goes on to the default writer unchanged |
| LinkRoute.RoutesAscending | tools/ioemu/target-i386-dm/piix_pci-dm.c:93-99 | the updates' links strictly ascend, so no link is updated twice by one write |
| LinkRoute.RouteIssuedIff | tools/ioemu/target-i386-dm/piix_pci-dm.c:93-99 | lane i gets an update for link `address+i-0x60` if and only if `0x60 <= address+i <= 0x63`; when it does, the update is the lane's own |
| LinkRoute.NoRoutesOutsideBlock | tools/ioemu/target-i386-dm/piix_pci-dm.c:98 | a write whose bytes all miss 0x60-0x63 issues no route update |
| LinkRoute.DefaultWriteOnceAndLast | tools/ioemu/target-i386-dm/piix_pci-dm.c:93-103 | the filter's calls end with exactly one default write, carrying the guest's write; every earlier call is a route update |
| LinkRoute.StraddlingWrite | tools/ioemu/target-i386-dm/piix_pci-dm.c:93-99 | a 4-byte write at 0x62 updates only links 2 and 3, from lanes 0 and 1 |
| LinkRoute.TwoByteWrite | tools/ioemu/target-i386-dm/piix_pci-dm.c:93-99 | a 2-byte write at 0x61 updates links 1 and 2, in that order |
| LinkRoute.RouteLinkAToIrq3 | tools/ioemu/target-i386-dm/piix_pci-dm.c:93-103 | byte 0x03 written to 0x60 routes link 0 to IRQ 3 and passes the byte on |
| LinkRoute.DisableLinkB | tools/ioemu/target-i386-dm/piix_pci-dm.c:93-103 | byte 0x80 written to 0x61 gives link 1 IRQ 0, yet the default writer still receives 0x80 |
| Piix3.Piix3Reset | tools/ioemu/target-i386-dm/piix_pci-dm.c:106-126 | the reset stores equal overlaying the reset table: the listed offsets get their values, every other offset is unchanged, and all four link-route bytes have the disable bit set |
| Piix3.Piix3ResetIdempotent | tools/ioemu/target-i386-dm/piix_pci-dm.c:106-126 | resetting twice gives the same config space as resetting once |
| Piix3.Piix3ResetKeepsIdentity | tools/ioemu/target-i386-dm/piix_pci-dm.c:106-126 | reset leaves every identification byte of the ISA bridge as it was |
| Piix3.Piix3ResetRoutesNone | tools/ioemu/target-i386-dm/piix_pci-dm.c:114-117 | after reset, each link-route byte normalises to IRQ 0 (disabled) |
| Piix3.Piix3Identify | tools/ioemu/target-i386-dm/piix_pci-dm.c:140-146 | the identity stores equal overlaying the ISA identity table |
| Piix3.Piix3Init | tools/ioemu/target-i386-dm/piix_pci-dm.c:140-148 | creation leaves the space with the identity table and then the reset table overlaid, and every other byte as the registry allocated it |
| Piix3.Piix3InitIdentity | tools/ioemu/target-i386-dm/piix_pci-dm.c:140-146 | the ISA bridge reads back vendor 0x8086, device 0x7000, class 0x0601, and a header type with the multi-function bit set |
| Piix3.Piix3InitIsReset | tools/ioemu/target-i386-dm/piix_pci-dm.c:140-148 | a freshly created ISA bridge is already in its reset state: resetting it changes nothing |

## Left out

- Data-port handlers `pci_host_data_*`: their decoding of the address latch into bus, device, function and offset lives in `hw/pci_host.h`, which is not part of this model. So a guest access through ports 0xCF8/0xCFC is modelled only from the filter onwards.
- `pci_register_bus`, `pci_register_device`, `pci_default_write_config`: the external PCI registry and default store. The configuration space the registry allocates is a parameter of `I440fxInit` and `Piix3Init`. The default writer appears only as the receiver of the passthrough write, so read-back of stored bytes is not modelled.
- `register_ioport_read` / `register_ioport_write` (lines 59-67): port-dispatch plumbing.
- `xc_hvm_set_pci_link_route`: a hypervisor call. It is represented by the route-update events the filter returns. Its result is ignored by the code, so no failure path is modelled.
- `i440fx_set_irq` / `xc_hvm_set_pci_intx_level` (lines 43-47): a hypervisor call with no logic of its own.
- `register_savevm`, the `piix3_dev` global, `qemu_mallocz` and the empty `pci_bios_init`: snapshot and allocation plumbing with no behaviour to state.
- LinkRoute.WriteConfig: requires `len <= 4`. For a longer write, the C shift `val >> (8*i)` would shift a 32-bit value by 32 bits or more, which is undefined. The registered port widths are 1, 2 and 4. A `len` of 0 or less is modelled: the loop then issues no update.
