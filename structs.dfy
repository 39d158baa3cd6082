/**
 * The code tables of the omreport records: attribute bits, status, state,
 * RAID layout and bus protocol codes, their labels, and the physical-disk
 * record whose attribute mask the bit predicates read.
 */
module Structs {
  import opened Strconv

  /** Go's int on a 64-bit platform. */
  newtype Int64 = x: int | -0x8000_0000_0000_0000 <= x < 0x8000_0000_0000_0000

  newtype BusProtocol = Int64
  newtype Status = Int64
  newtype State = Int64
  newtype Layout = Int64

  // Attribute bits of a physical disk's AttributesMask.
  const AttrLogicalConnector: int := 64      // 1 << 6
  const AttrGlobalHS: int := 128             // 1 << 7
  const AttrDedicatedHS: int := 256          // 1 << 8
  const AttrNonRAID: int := 512              // 1 << 9
  const AttrFailurePredicted: int := 2048    // 1 << 11

  const StatusOK: Status := 2
  const StatusNonCritical: Status := 3
  const StatusCritical: Status := 4

  const StateReady: State := 1
  const StateFailed: State := 2
  const StateOnline: State := 4
  const StateOffline: State := 8
  const StateDegraded: State := 32
  const StateNonRAID: State := 4096
  const StateReplacing: State := 2097152
  const StateRebuilding: State := 8388608
  const StateBackgroundInitialization: State := 34359738368
  const StateForeign: State := 274877906944
  const StateClear: State := 549755813888
  const StateDegradedRedundancy: State := 9007199254740992

  const LayoutRAID0: Layout := 2
  const LayoutRAID1: Layout := 4
  const LayoutRAID5: Layout := 64
  const LayoutRAID6: Layout := 128
  const LayoutRAID60: Layout := 262144

  const BusProtocolSCSI: BusProtocol := 1
  const BusProtocolIDE: BusProtocol := 2
  const BusProtocolSATA: BusProtocol := 7
  const BusProtocolSAS: BusProtocol := 8
  const BusProtocolPCIe: BusProtocol := 9

  /** A physical disk as omreport describes it; AttributesMask is a string of binary digits. */
  datatype PDisk = PDisk(
    attributesMask: string,
    busProtocol: BusProtocol,
    id: Int64,
    controllerID: Int64,
    enclosureID: Int64,
    partNo: string,
    productID: string,
    serialNo: string,
    slotNo: Int64,
    status: Status,
    state: State,
    vendor: string)

  // ---------------------------------------------------------------------
  // Single-bit constants
  // ---------------------------------------------------------------------

  /** x has exactly one bit set. */
  predicate IsSingleBit(x: int) {
    0 < x < 0x1_0000_0000_0000_0000 && AtMostOneBit(x as bv64)
  }

  /** Clearing the lowest set bit of b leaves nothing: b has at most one bit set. */
  predicate AtMostOneBit(b: bv64) {
    b & (b - 1) == 0
  }

  /** The attribute masks are the bits their names say, so `mask & Attr… > 0` tests one bit. */
  lemma AttributeBits()
    ensures AttrLogicalConnector == Pow2(6) && AttrGlobalHS == Pow2(7) && AttrDedicatedHS == Pow2(8)
    ensures AttrNonRAID == Pow2(9) && AttrFailurePredicted == Pow2(11)
  {
    assert Pow2(6) == 64 by {
      assert Pow2(1) == 2 && Pow2(2) == 4 && Pow2(3) == 8 && Pow2(4) == 16 && Pow2(5) == 32;
    }
    assert Pow2(7) == 128 && Pow2(8) == 256 && Pow2(9) == 512 && Pow2(10) == 1024 && Pow2(11) == 2048;
  }

  /** Every state code is a single bit. */
  lemma StateCodesAreSingleBits()
    ensures IsSingleBit(StateReady as int) && IsSingleBit(StateFailed as int) && IsSingleBit(StateOnline as int)
    ensures IsSingleBit(StateOffline as int) && IsSingleBit(StateDegraded as int) && IsSingleBit(StateNonRAID as int)
    ensures IsSingleBit(StateReplacing as int) && IsSingleBit(StateRebuilding as int)
    ensures IsSingleBit(StateBackgroundInitialization as int)
    ensures IsSingleBit(StateForeign as int)
    ensures IsSingleBit(StateClear as int)
    ensures IsSingleBit(StateDegradedRedundancy as int)
  {
  }

  /** Every layout code is a single bit. */
  lemma LayoutCodesAreSingleBits()
    ensures IsSingleBit(LayoutRAID0 as int) && IsSingleBit(LayoutRAID1 as int) && IsSingleBit(LayoutRAID5 as int)
    ensures IsSingleBit(LayoutRAID6 as int) && IsSingleBit(LayoutRAID60 as int)
  {
  }

  // ---------------------------------------------------------------------
  // Rendering of codes no table knows
  // ---------------------------------------------------------------------

  predicate StartsWith(prefix: string, s: string) {
    |prefix| <= |s| && s[..|prefix|] == prefix
  }

  /** The corrected default arm: the prefix followed by the code in decimal. */
  function UnknownLabel(prefix: string, code: int): (s: string)
    ensures StartsWith(prefix, s)
  {
    prefix + FormatInt(code)
  }

  /** The default arm as written: Go's string(code) turns the code into the one character with that code point. */
  function UnknownLabelAsWritten(prefix: string, code: int): (s: string)
    ensures StartsWith(prefix, s) && |s| == |prefix| + 1
  {
    prefix + [RuneOf(code)]
  }

  /** Go's integer-to-string conversion: the code point, or U+FFFD when the integer is not a Unicode scalar value. */
  function RuneOf(x: int): char {
    if 0 <= x < 0xD800 || 0xE000 <= x <= 0x10FFFF then x as char else '�'
  }

  /** Corrected, the unknown label determines the code. */
  lemma {:induction false} UnknownLabelInjective(prefix: string, a: int, b: int)
    ensures UnknownLabel(prefix, a) == UnknownLabel(prefix, b) ==> a == b
  {
    if UnknownLabel(prefix, a) == UnknownLabel(prefix, b) {
      assert UnknownLabel(prefix, a)[|prefix|..] == FormatInt(a);
      assert UnknownLabel(prefix, b)[|prefix|..] == FormatInt(b);
      FormatIntInjective(a, b);
    }
  }

  // ---------------------------------------------------------------------
  // Status
  // ---------------------------------------------------------------------

  const StatusUnknownPrefix := "Unknown status code "

  predicate IsKnownStatus(s: Status) {
    s == StatusCritical || s == StatusOK || s == StatusNonCritical
  }

  /** (*Status).String with its default arm corrected to print the code in decimal. */
  function StatusString(s: Status): (r: string)
    ensures IsKnownStatus(s) <==> !StartsWith(StatusUnknownPrefix, r)
  {
    if s == StatusCritical then "Critical"
    else if s == StatusOK then "OK"
    else if s == StatusNonCritical then "Non-critical"
    else UnknownLabel(StatusUnknownPrefix, s as int)
  }

  lemma StatusLabels()
    ensures StatusString(2) == "OK" && StatusString(3) == "Non-critical" && StatusString(4) == "Critical"
  {
  }

  /** (*Status).String as written, whose default arm renders the code with string(code). */
  function StatusStringAsWritten(s: Status): (r: string)
    ensures IsKnownStatus(s) ==> r == StatusString(s)
    ensures !IsKnownStatus(s) ==> StartsWith(StatusUnknownPrefix, r) && |r| == |StatusUnknownPrefix| + 1
  {
    if IsKnownStatus(s) then StatusString(s) else UnknownLabelAsWritten(StatusUnknownPrefix, s as int)
  }

  /**
   * As written, different unknown codes share a label (every negative code
   * is U+FFFD) and a code can print as a letter; the same holds for the
   * other three String methods.
   */
  lemma StatusRuneRenderingCollides()
    ensures StatusStringAsWritten(-1) == StatusStringAsWritten(-2)
    ensures StatusStringAsWritten(65) == "Unknown status code A"
    ensures StatusString(-1) != StatusString(-2)
  {
    StatusStringInjective(-1, -2);
  }

  /** Distinct status codes get distinct labels. */
  lemma StatusStringInjective(a: Status, b: Status)
    ensures StatusString(a) == StatusString(b) ==> a == b
  {
    if !IsKnownStatus(a) && !IsKnownStatus(b) {
      UnknownLabelInjective(StatusUnknownPrefix, a as int, b as int);
    }
  }

  // ---------------------------------------------------------------------
  // State
  // ---------------------------------------------------------------------

  const StateUnknownPrefix := "Unknown state code "

  predicate IsKnownState(s: State) {
    s == StateOnline || s == StateBackgroundInitialization || s == StateClear || s == StateDegraded
    || s == StateDegradedRedundancy || s == StateFailed || s == StateForeign || s == StateNonRAID
    || s == StateOffline || s == StateReady || s == StateRebuilding || s == StateReplacing
  }

  /** (*State).String with its default arm corrected to print the code in decimal. */
  function StateString(s: State): (r: string)
    ensures IsKnownState(s) <==> !StartsWith(StateUnknownPrefix, r)
  {
    if s == StateOnline then "Online"
    else if s == StateBackgroundInitialization then
      assert "Background Initialization"[0] != 'U';
      "Background Initialization"
    else if s == StateClear then "Clear"
    else if s == StateDegraded then "Degraded"
    else if s == StateDegradedRedundancy then
      assert "Degraded Redundancy"[0] != 'U';
      "Degraded Redundancy"
    else if s == StateFailed then "Failed"
    else if s == StateForeign then "Foreign"
    else if s == StateNonRAID then "Non-RAID"
    else if s == StateOffline then "Offline"
    else if s == StateReady then "Ready"
    else if s == StateRebuilding then "Rebuilding"
    else if s == StateReplacing then "Replacing"
    else UnknownLabel(StateUnknownPrefix, s as int)
  }

  lemma StateLabels()
    ensures StateString(1) == "Ready" && StateString(2) == "Failed" && StateString(4) == "Online"
    ensures StateString(8) == "Offline" && StateString(32) == "Degraded" && StateString(4096) == "Non-RAID"
    ensures StateString(2097152) == "Replacing" && StateString(8388608) == "Rebuilding"
    ensures StateString(34359738368) == "Background Initialization" && StateString(274877906944) == "Foreign"
    ensures StateString(549755813888) == "Clear" && StateString(9007199254740992) == "Degraded Redundancy"
  {
  }

  /** (*State).String as written, whose default arm renders the code with string(code). */
  function StateStringAsWritten(s: State): (r: string)
    ensures IsKnownState(s) ==> r == StateString(s)
    ensures !IsKnownState(s) ==> StartsWith(StateUnknownPrefix, r) && |r| == |StateUnknownPrefix| + 1
  {
    if IsKnownState(s) then StateString(s) else UnknownLabelAsWritten(StateUnknownPrefix, s as int)
  }

  /** As written, unknown state codes -1 and -2 share a label; corrected, they do not. */
  lemma StateRuneRenderingCollides()
    ensures StateStringAsWritten(-1) == StateStringAsWritten(-2)
    ensures StateString(-1) != StateString(-2)
  {
    StateStringInjective(-1, -2);
  }

  /** Distinct state codes get distinct labels. */
  lemma StateStringInjective(a: State, b: State)
    ensures StateString(a) == StateString(b) ==> a == b
  {
    if !IsKnownState(a) && !IsKnownState(b) {
      UnknownLabelInjective(StateUnknownPrefix, a as int, b as int);
    }
  }

  // ---------------------------------------------------------------------
  // BusProtocol
  // ---------------------------------------------------------------------

  const BusProtocolUnknownPrefix := "Unknown bus protocol code "

  predicate IsKnownBusProtocol(b: BusProtocol) {
    b == BusProtocolIDE || b == BusProtocolPCIe || b == BusProtocolSAS || b == BusProtocolSATA || b == BusProtocolSCSI
  }

  /** (*BusProtocol).String with its default arm corrected to print the code in decimal. */
  function BusProtocolString(b: BusProtocol): (r: string)
    ensures IsKnownBusProtocol(b) <==> !StartsWith(BusProtocolUnknownPrefix, r)
  {
    if b == BusProtocolIDE then "IDE"
    else if b == BusProtocolPCIe then "PCIe"
    else if b == BusProtocolSAS then "SAS"
    else if b == BusProtocolSATA then "SATA"
    else if b == BusProtocolSCSI then "SCSI"
    else UnknownLabel(BusProtocolUnknownPrefix, b as int)
  }

  lemma BusProtocolLabels()
    ensures BusProtocolString(1) == "SCSI" && BusProtocolString(2) == "IDE" && BusProtocolString(7) == "SATA"
    ensures BusProtocolString(8) == "SAS" && BusProtocolString(9) == "PCIe"
  {
  }

  /** (*BusProtocol).String as written, whose default arm renders the code with string(code). */
  function BusProtocolStringAsWritten(b: BusProtocol): (r: string)
    ensures IsKnownBusProtocol(b) ==> r == BusProtocolString(b)
    ensures !IsKnownBusProtocol(b) ==> StartsWith(BusProtocolUnknownPrefix, r) && |r| == |BusProtocolUnknownPrefix| + 1
  {
    if IsKnownBusProtocol(b) then BusProtocolString(b) else UnknownLabelAsWritten(BusProtocolUnknownPrefix, b as int)
  }

  /** As written, unknown bus protocol codes -1 and -2 share a label; corrected, they do not. */
  lemma BusProtocolRuneRenderingCollides()
    ensures BusProtocolStringAsWritten(-1) == BusProtocolStringAsWritten(-2)
    ensures BusProtocolString(-1) != BusProtocolString(-2)
  {
    BusProtocolStringInjective(-1, -2);
  }

  /** Distinct bus protocol codes get distinct labels. */
  lemma BusProtocolStringInjective(a: BusProtocol, b: BusProtocol)
    ensures BusProtocolString(a) == BusProtocolString(b) ==> a == b
  {
    if !IsKnownBusProtocol(a) && !IsKnownBusProtocol(b) {
      UnknownLabelInjective(BusProtocolUnknownPrefix, a as int, b as int);
    }
  }

  // ---------------------------------------------------------------------
  // Layout
  // ---------------------------------------------------------------------

  const LayoutUnknownPrefix := "Unknown layout code "

  predicate IsKnownLayout(l: Layout) {
    l == LayoutRAID0 || l == LayoutRAID1 || l == LayoutRAID5 || l == LayoutRAID6 || l == LayoutRAID60
  }

  /** (*Layout).String with its default arm corrected to print the code in decimal. */
  function LayoutString(l: Layout): (r: string)
    ensures IsKnownLayout(l) <==> !StartsWith(LayoutUnknownPrefix, r)
  {
    if l == LayoutRAID0 then "RAID-0"
    else if l == LayoutRAID1 then "RAID-1"
    else if l == LayoutRAID5 then "RAID-5"
    else if l == LayoutRAID6 then "RAID-6"
    else if l == LayoutRAID60 then "RAID-60"
    else UnknownLabel(LayoutUnknownPrefix, l as int)
  }

  lemma LayoutLabels()
    ensures LayoutString(2) == "RAID-0" && LayoutString(4) == "RAID-1" && LayoutString(64) == "RAID-5"
    ensures LayoutString(128) == "RAID-6" && LayoutString(262144) == "RAID-60"
  {
  }

  /** (*Layout).String as written, whose default arm renders the code with string(code). */
  function LayoutStringAsWritten(l: Layout): (r: string)
    ensures IsKnownLayout(l) ==> r == LayoutString(l)
    ensures !IsKnownLayout(l) ==> StartsWith(LayoutUnknownPrefix, r) && |r| == |LayoutUnknownPrefix| + 1
  {
    if IsKnownLayout(l) then LayoutString(l) else UnknownLabelAsWritten(LayoutUnknownPrefix, l as int)
  }

  /** As written, unknown layout codes -1 and -2 share a label; corrected, they do not. */
  lemma LayoutRuneRenderingCollides()
    ensures LayoutStringAsWritten(-1) == LayoutStringAsWritten(-2)
    ensures LayoutString(-1) != LayoutString(-2)
  {
    LayoutStringInjective(-1, -2);
  }

  /** Distinct layout codes get distinct labels. */
  lemma LayoutStringInjective(a: Layout, b: Layout)
    ensures LayoutString(a) == LayoutString(b) ==> a == b
  {
    if !IsKnownLayout(a) && !IsKnownLayout(b) {
      UnknownLabelInjective(LayoutUnknownPrefix, a as int, b as int);
    }
  }
}
