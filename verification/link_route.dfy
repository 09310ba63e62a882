/**
 The PIIX3 config-write filter (`piix3_write_config`). A guest write of `len`
 bytes of `val` at config offset `address` is split into byte lanes; every
 lane that lands on one of the four PCI link-route registers PIRQRC[A:D]
 (offsets 0x60-0x63 of the Intel 82371SB PIIX3) yields one route update for
 the hypervisor, and afterwards the write is handed unchanged to the default
 config-space writer. The hypervisor call and the default writer are outside
 this model: the filter's result records the route updates it issues, in
 order, and the triple it passes on.
 */
module LinkRoute {
  import opened ConfigSpace

  /** The C code's `uint32_t`. */
  type U32 = x: int | 0 <= x < 0x1_0000_0000

  const Word32: int := 0x1_0000_0000

  /** Offset of PIRQRC[A]; the four link-route registers follow it. */
  const RouteBase: int := 0x60
  const LinkCount: nat := 4

  /** Bit 7 of a link-route register: routing disabled. */
  const RouteDisable: Byte := 0x80

  /** A guest config write as the filter receives it. */
  datatype ConfigWrite = ConfigWrite(address: U32, val: bv32, len: int)

  /** One hypervisor link-route update: route `link` to IRQ `irq` (0 = none). */
  datatype RouteUpdate = RouteUpdate(link: nat, irq: Byte)

  /** What the filter does: the route updates it issues, in issue order, and
      the write it hands to the default config-space writer. */
  datatype FilterResult = FilterResult(routes: seq<RouteUpdate>, passthrough: ConfigWrite)

  /** Byte lane `i` of a 32-bit value: the value shifted right by 8*i bits,
      masked to its low byte and truncated to 8 bits. */
  function LaneByte(val: bv32, i: nat): Byte
    requires i < 4
  {
    var shifted := match i
      case 0 => val
      case 1 => val >> 8
      case 2 => val >> 16
      case _ => val >> 24;
    (shifted & 0xff) as Byte
  }

  /** The four lanes packed back into a little-endian word. */
  function PackLanes(b0: Byte, b1: Byte, b2: Byte, b3: Byte): bv32
  {
    (b0 as bv32) | ((b1 as bv32) << 8) | ((b2 as bv32) << 16) | ((b3 as bv32) << 24)
  }

  /** Lane `i` is the word shifted right by the variable amount 8*i, masked
      to its low byte: the per-lane constant shifts agree with that shift. */
  lemma LaneByteIsShift(val: bv32, i: nat)
    requires i < 4
    ensures LaneByte(val, i) == ((val >> (8 * i)) & 0xff) as Byte
  {
    if i == 0 {
      assert val >> (8 * i) == val;
    } else if i == 1 {
      assert val >> (8 * i) == val >> 8;
    } else if i == 2 {
      assert val >> (8 * i) == val >> 16;
    } else {
      assert val >> (8 * i) == val >> 24;
    }
  }

  /** Splitting a word into lanes loses nothing: packing the lanes gives it back. */
  lemma LanesRoundTrip(val: bv32)
    ensures PackLanes(LaneByte(val, 0), LaneByte(val, 1), LaneByte(val, 2), LaneByte(val, 3)) == val
  {
  }

  /** The IRQ the hypervisor is given for a route-register byte: a set disable
      bit becomes 0, otherwise the low nibble. */
  function NormaliseRoute(b: Byte): (v: Byte)
    ensures v < 16
  {
    var v := if b & RouteDisable != 0 then 0 else b;
    v & 0x0f
  }

  /** The same normalisation read on the byte's numeric value: a byte of 0x80
      or more is disabled (0), any other byte keeps its value modulo 16. */
  lemma NormaliseRouteValue(b: Byte)
    ensures NormaliseRoute(b) as int == if b as int >= 0x80 then 0 else b as int % 16
  {
  }

  /** Absolute offset of lane `i`, computed in 32-bit unsigned arithmetic. */
  function LaneOffset(address: U32, i: nat): U32
  {
    (address + i) % Word32
  }

  predicate InRouteBlock(off: int) {
    RouteBase <= off < RouteBase + LinkCount
  }

  /** The 32-bit wrap of a lane offset never lands in the route block, so
      the filter's test is the test on the unbounded offset. */
  lemma LaneOffsetNoWrap(address: U32, i: nat)
    requires i < 4
    ensures InRouteBlock(LaneOffset(address, i)) <==> InRouteBlock(address + i)
    ensures InRouteBlock(address + i) ==> LaneOffset(address, i) == address + i
  {
  }

  /** The route updates one lane issues: one if it lies in the route block. */
  function LaneRoutes(address: U32, val: bv32, i: nat): (rs: seq<RouteUpdate>)
    requires i < 4
    ensures |rs| <= 1
  {
    var off := LaneOffset(address, i);
    if InRouteBlock(off) then
      [RouteUpdate(off - RouteBase, NormaliseRoute(LaneByte(val, i)))]
    else
      []
  }

  /** The route updates of lanes 0 .. n-1, in lane order: the filter's loop. */
  function ScanLanes(address: U32, val: bv32, n: int): (routes: seq<RouteUpdate>)
    requires n <= 4
    ensures |routes| <= if n <= 0 then 0 else n
    ensures forall k :: 0 <= k < |routes| ==> routes[k].link < LinkCount && routes[k].irq < 16
    decreases n
  {
    if n <= 0 then [] else ScanLanes(address, val, n - 1) + LaneRoutes(address, val, n - 1)
  }

  /** The filter: route updates for the lanes in 0x60-0x63, then the write,
      untouched, for the default writer. */
  function WriteConfig(w: ConfigWrite): (r: FilterResult)
    requires w.len <= 4
    ensures r.passthrough == w
    ensures forall k :: 0 <= k < |r.routes| ==> r.routes[k].link < LinkCount && r.routes[k].irq < 16
  {
    FilterResult(ScanLanes(w.address, w.val, w.len), w)
  }

  // ---------------------------------------------------------------------
  // Reference description of the route updates a write must issue.

  function Max(x: int, y: int): int { if x < y then y else x }
  function Min(x: int, y: int): int { if x < y then x else y }

  /** How many of the bytes [address, address + n) lie in 0x60-0x63. */
  function RoutedLaneCount(address: int, n: int): nat
  {
    Max(0, Min(address + n, RouteBase + LinkCount) - Max(address, RouteBase))
  }

  /** The first lane of a write at `address` that can land in the route block. */
  function FirstRoutedLane(address: int): nat
  {
    Max(0, RouteBase - address)
  }

  /** The update lane `i` must issue: the link it addresses, the IRQ its byte names. */
  function ExpectedRoute(address: int, val: bv32, i: nat): RouteUpdate
    requires i < 4
    requires InRouteBlock(address + i)
  {
    RouteUpdate(address + i - RouteBase, NormaliseRoute(LaneByte(val, i)))
  }

  lemma {:induction false} ScanLanesCount(address: U32, val: bv32, n: int)
    requires n <= 4
    ensures |ScanLanes(address, val, n)| == RoutedLaneCount(address, n)
    decreases n
  {
    if n > 0 {
      ScanLanesCount(address, val, n - 1);
      LaneOffsetNoWrap(address, n - 1);
    }
  }

  /** The k-th of the lanes inside the block is lane FirstRoutedLane + k. */
  lemma RoutedLaneBounds(address: int, n: int, k: nat)
    requires k < RoutedLaneCount(address, n)
    ensures FirstRoutedLane(address) + k < n
    ensures InRouteBlock(address + FirstRoutedLane(address) + k)
    ensures RoutedLaneCount(address, FirstRoutedLane(address) + k) == k
  {
  }

  /** The update of the last lane, when there is one, follows the prefix's. */
  lemma ScanLanesLast(address: U32, val: bv32, n: int)
    requires 0 < n <= 4
    requires InRouteBlock(address + n - 1)
    ensures |ScanLanes(address, val, n)| == |ScanLanes(address, val, n - 1)| + 1
    ensures ScanLanes(address, val, n)[|ScanLanes(address, val, n - 1)|] == ExpectedRoute(address, val, n - 1)
  {
    LaneOffsetNoWrap(address, n - 1);
    var prefix := ScanLanes(address, val, n - 1);
    var last := LaneRoutes(address, val, n - 1);
    assert last == [ExpectedRoute(address, val, n - 1)];
    assert ScanLanes(address, val, n) == prefix + last;
  }

  /** Lane `i`, when it lies in the block, issues the update at position
      RoutedLaneCount(address, i): after one update for each earlier lane in
      the block, and before those of the later lanes. */
  lemma {:induction false} ScanLanesAt(address: U32, val: bv32, n: int, i: nat)
    requires n <= 4
    requires i < n
    requires InRouteBlock(address + i)
    ensures RoutedLaneCount(address, i) < |ScanLanes(address, val, n)|
    ensures ScanLanes(address, val, n)[RoutedLaneCount(address, i)] == ExpectedRoute(address, val, i)
    decreases n
  {
    if i < n - 1 {
      ScanLanesAt(address, val, n - 1, i);
      var prefix := ScanLanes(address, val, n - 1);
      assert ScanLanes(address, val, n) == prefix + LaneRoutes(address, val, n - 1);
    } else {
      ScanLanesCount(address, val, n - 1);
      ScanLanesLast(address, val, n);
    }
  }

  lemma ScanLanesRouteAt(address: U32, val: bv32, n: int, k: nat)
    requires n <= 4
    requires k < |ScanLanes(address, val, n)|
    ensures FirstRoutedLane(address) + k < n
    ensures InRouteBlock(address + FirstRoutedLane(address) + k)
    ensures ScanLanes(address, val, n)[k] == ExpectedRoute(address, val, FirstRoutedLane(address) + k)
  {
    var i := FirstRoutedLane(address) + k;
    ScanLanesCount(address, val, n);
    RoutedLaneBounds(address, n, k);
    ScanLanesAt(address, val, n, i);
  }

  /** The k-th update a write issues is the one of its k-th lane inside the
      block: the lanes that reach 0x60-0x63 are consecutive, starting at
      FirstRoutedLane. */
  lemma WriteConfigRouteAt(w: ConfigWrite, k: nat)
    requires w.len <= 4
    requires k < |WriteConfig(w).routes|
    ensures FirstRoutedLane(w.address) + k < w.len
    ensures InRouteBlock(w.address + FirstRoutedLane(w.address) + k)
    ensures WriteConfig(w).routes[k] == ExpectedRoute(w.address, w.val, FirstRoutedLane(w.address) + k)
  {
    assert WriteConfig(w).routes == ScanLanes(w.address, w.val, w.len);
    ScanLanesRouteAt(w.address, w.val, w.len, k);
  }


  /** The updates a write issues are exactly those of its lanes inside
      0x60-0x63, one each, in lane order, and the write itself goes on to
      the default writer unchanged. */
  lemma WriteConfigRoutes(w: ConfigWrite)
    requires w.len <= 4
    ensures |WriteConfig(w).routes| == RoutedLaneCount(w.address, w.len)
    ensures forall k :: 0 <= k < |WriteConfig(w).routes| ==>
      var i := FirstRoutedLane(w.address) + k;
      i < w.len && InRouteBlock(w.address + i) && WriteConfig(w).routes[k] == ExpectedRoute(w.address, w.val, i)
    ensures WriteConfig(w).passthrough == w
  {
    ScanLanesCount(w.address, w.val, w.len);
    forall k | 0 <= k < |WriteConfig(w).routes|
      ensures var i := FirstRoutedLane(w.address) + k;
        i < w.len && InRouteBlock(w.address + i) && WriteConfig(w).routes[k] == ExpectedRoute(w.address, w.val, i)
    {
      WriteConfigRouteAt(w, k);
    }
  }

  /** Links are updated in strictly ascending order, so none twice. */
  lemma RoutesAscending(w: ConfigWrite)
    requires w.len <= 4
    ensures forall j, k :: 0 <= j < k < |WriteConfig(w).routes| ==>
      WriteConfig(w).routes[j].link < WriteConfig(w).routes[k].link
  {
    var routes := WriteConfig(w).routes;
    forall j, k | 0 <= j < k < |routes|
      ensures routes[j].link < routes[k].link
    {
      WriteConfigRouteAt(w, j);
      WriteConfigRouteAt(w, k);
    }
  }

  /** A lane's link is named by some update if and only if the lane's offset
      is in 0x60-0x63, and then the lane's own update is among them. The
      only-if half follows from every link being below LinkCount; that no
      update comes from a lane outside the block at all is WriteConfigRoutes,
      which ties update k to lane FirstRoutedLane + k inside the block. */
  lemma RouteIssuedIff(w: ConfigWrite, i: nat)
    requires w.len <= 4
    requires i < w.len
    ensures (exists k :: 0 <= k < |WriteConfig(w).routes| && WriteConfig(w).routes[k].link == w.address + i - RouteBase)
            <==> InRouteBlock(w.address + i)
    ensures InRouteBlock(w.address + i) ==> ExpectedRoute(w.address, w.val, i) in WriteConfig(w).routes
  {
    var routes := WriteConfig(w).routes;
    var first := FirstRoutedLane(w.address);
    ScanLanesCount(w.address, w.val, w.len);
    if InRouteBlock(w.address + i) {
      ScanLanesAt(w.address, w.val, w.len, i);
      assert routes[RoutedLaneCount(w.address, i)] == ExpectedRoute(w.address, w.val, i);
    }
  }

  /** A write whose bytes miss 0x60-0x63 entirely issues no route update. */
  lemma NoRoutesOutsideBlock(w: ConfigWrite)
    requires w.len <= 4
    requires w.address + w.len <= RouteBase || w.address >= RouteBase + LinkCount
    ensures WriteConfig(w).routes == []
  {
    ScanLanesCount(w.address, w.val, w.len);
  }

  // ---------------------------------------------------------------------
  // The order of the filter's outgoing calls.

  /** A call the filter makes: a hypervisor route update or the default write. */
  datatype Call = SetLinkRoute(link: nat, irq: Byte) | DefaultWrite(write: ConfigWrite)

  /** The filter's calls in the order it makes them. */
  function Calls(r: FilterResult): seq<Call>
  {
    seq(|r.routes|, k requires 0 <= k < |r.routes| => SetLinkRoute(r.routes[k].link, r.routes[k].irq))
      + [DefaultWrite(r.passthrough)]
  }

  /** The default writer is called exactly once, after every route update,
      with the write exactly as the guest issued it. The order itself is
      fixed by `Calls`, which lists the route updates and then the one
      default write, as the C function makes them; what the lemma adds is
      that the default write carries the guest's own triple. */
  lemma DefaultWriteOnceAndLast(w: ConfigWrite)
    requires w.len <= 4
    ensures var calls := Calls(WriteConfig(w));
      && |calls| >= 1
      && calls[|calls| - 1] == DefaultWrite(w)
      && (forall k :: 0 <= k < |calls| - 1 ==> calls[k].SetLinkRoute?)
  {
  }

  // ---------------------------------------------------------------------
  // Worked cases.

  /** A 4-byte write at 0x62 reaches only 0x62 and 0x63: links 2 and 3. */
  lemma StraddlingWrite(val: bv32)
    ensures WriteConfig(ConfigWrite(0x62, val, 4)).routes
         == [RouteUpdate(2, NormaliseRoute(LaneByte(val, 0))), RouteUpdate(3, NormaliseRoute(LaneByte(val, 1)))]
  {
  }

  /** A 2-byte write at 0x61 updates links 1 and 2, in that order. */
  lemma TwoByteWrite(val: bv32)
    ensures WriteConfig(ConfigWrite(0x61, val, 2)).routes
         == [RouteUpdate(1, NormaliseRoute(LaneByte(val, 0))), RouteUpdate(2, NormaliseRoute(LaneByte(val, 1)))]
  {
  }

  /** IRQ 3 written to PIRQRC[A] routes link 0 to IRQ 3. */
  lemma RouteLinkAToIrq3()
    ensures WriteConfig(ConfigWrite(0x60, 0x03, 1)) == FilterResult([RouteUpdate(0, 3)], ConfigWrite(0x60, 0x03, 1))
  {
  }

  /** The disable bit written to PIRQRC[B] tells the hypervisor IRQ 0, yet the
      default writer still stores the guest's own byte 0x80. */
  lemma DisableLinkB()
    ensures WriteConfig(ConfigWrite(0x61, 0x80, 1)) == FilterResult([RouteUpdate(1, 0)], ConfigWrite(0x61, 0x80, 1))
  {
  }
}
