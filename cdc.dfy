/**
 * The CDC class driver: one session with the attached power supply. It owns
 * the device's bus address, the number of endpoints bound so far and a
 * three-slot endpoint table (control, bulk IN, bulk OUT), and it enumerates
 * the device through the host controller of module UsbHost.
 */
module Cdc {
  import opened UsbHost

  const TotalEndpoints: nat := 3
  const EpDataInIndex: nat := 1
  const EpDataOutIndex: nat := 2

  // Result codes of the USB host library. Its header is not part of this
  // model: these are placeholder values, and only their being non-zero and
  // distinct matters to the driver.
  const UsbErrorAddressNotFoundInPool: nat := 0xD6
  const UsbErrorEpInfoIsNull: nat := 0xD7
  const UsbErrorClassInstanceAlreadyInUse: nat := 0xD9

  /** The driver's fields as a value. */
  datatype Session = Session(bAddress: nat, bConfNum: nat, bNumEP: nat, ep: seq<EpInfo>)

  ghost predicate WellFormed(s: Session)
  {
    |s.ep| == TotalEndpoints && 1 <= s.bNumEP <= TotalEndpoints
  }

  /** Transfer type in bits 1..0 of bmAttributes (USB 2.0, section 9.6.6). */
  datatype TransferType = Control | Isochronous | Bulk | Interrupt

  function TransferTypeOf(d: EndpointDescriptor): TransferType
  {
    var t := d.bmAttributes & 0x03;
    if t == 0 then Control else if t == 1 then Isochronous else if t == 2 then Bulk else Interrupt
  }

  /** Direction bit 7 of bEndpointAddress (USB 2.0, section 9.6.6): set for IN. */
  predicate DirectionIn(d: EndpointDescriptor)
  {
    d.bEndpointAddress >> 7 == 1
  }

  /** Endpoint number in bits 3..0 of bEndpointAddress (USB 2.0, section 9.6.6). */
  function EndpointNumber(d: EndpointDescriptor): (n: nat)
    ensures n < 16
  {
    (d.bEndpointAddress & 0x0F) as nat
  }

  /** EP0's bMaxPacketSize0 from the device descriptor, as a number. */
  function ControlPacketSize(descr: DeviceDescriptor): (n: nat)
    ensures n < 0x100
  {
    descr.bMaxPacketSize0 as nat
  }

  /** bNumConfigurations from the device descriptor, as a number. */
  function ConfigurationCount(descr: DeviceDescriptor): (n: nat)
    ensures n < 0x100
  {
    descr.bNumConfigurations as nat
  }

  /** The endpoint's wMaxPacketSize as a number. */
  function PacketSize(d: EndpointDescriptor): (n: nat)
    ensures n < 0x1_0000
  {
    d.wMaxPacketSize as nat
  }

  /**
   * The endpoint-table slot the callback fills for descriptor `d`: bit 1 of
   * bmAttributes set (bulk, but also interrupt) picks slot 1 for IN and 2 for
   * OUT; any other endpoint lands in slot 0, the control slot.
   */
  function SlotOf(d: EndpointDescriptor): (i: nat)
    ensures i < TotalEndpoints
  {
    if d.bmAttributes & 0x02 == 2 then
      if d.bEndpointAddress & 0x80 == 0x80 then EpDataInIndex else EpDataOutIndex
    else 0
  }

  /** What the slot choice means in terms of the descriptor's transfer type and direction. */
  lemma SlotOfClassifies(d: EndpointDescriptor)
    ensures SlotOf(d) == 0 <==> TransferTypeOf(d) in {Control, Isochronous}
    ensures SlotOf(d) == EpDataInIndex <==> TransferTypeOf(d) in {Bulk, Interrupt} && DirectionIn(d)
    ensures SlotOf(d) == EpDataOutIndex <==> TransferTypeOf(d) in {Bulk, Interrupt} && !DirectionIn(d)
  {
  }

  /**
   * The effect of one endpoint callback on the session, given the pipe the
   * allocator would hand out (the allocator is only asked for a data slot).
   */
  function Xtract(s: Session, conf: nat, d: EndpointDescriptor, pipe: nat): (r: Session)
    requires WellFormed(s)
    ensures WellFormed(r)
  {
    if s.bNumEP == TotalEndpoints then s
    else
      var i := SlotOf(d);
      var filled := s.ep[i].(deviceEpNum := EndpointNumber(d), maxPktSize := PacketSize(d));
      if i == 0 || pipe == 0 then s.(bConfNum := conf, ep := s.ep[i := filled])
      else s.(bConfNum := conf, bNumEP := s.bNumEP + 1, ep := s.ep[i := filled.(hostPipeNum := pipe)])
  }

  /**
   * One callback on a session with fewer than three endpoints records the
   * configuration, fills the descriptor's slot and touches no other slot; it
   * binds the endpoint (pipe set, count raised by one) exactly when the slot
   * is a data slot and the allocation succeeded. With three endpoints bound
   * it is a no-op.
   */
  lemma XtractEffect(s: Session, conf: nat, d: EndpointDescriptor, pipe: nat)
    requires WellFormed(s)
    ensures s.bNumEP == TotalEndpoints ==> Xtract(s, conf, d, pipe) == s
    ensures s.bNumEP < TotalEndpoints ==>
      var r := Xtract(s, conf, d, pipe);
      r.bAddress == s.bAddress && r.bConfNum == conf
      && r.ep[SlotOf(d)].deviceEpNum == EndpointNumber(d)
      && r.ep[SlotOf(d)].maxPktSize == PacketSize(d)
      && (forall j :: 0 <= j < TotalEndpoints && j != SlotOf(d) ==> r.ep[j] == s.ep[j])
    ensures s.bNumEP < TotalEndpoints ==>
      var r := Xtract(s, conf, d, pipe);
      var bound := SlotOf(d) != 0 && pipe != 0;
      r.bNumEP == (if bound then s.bNumEP + 1 else s.bNumEP)
      && r.ep[SlotOf(d)].hostPipeNum == (if bound then pipe else s.ep[SlotOf(d)].hostPipeNum)
  {
    if s.bNumEP < TotalEndpoints {
      var r := Xtract(s, conf, d, pipe);
      forall j | 0 <= j < TotalEndpoints && j != SlotOf(d)
        ensures r.ep[j] == s.ep[j]
      {
      }
    }
  }

  /** A callback that gets a pipe for a data slot is the callback without one, plus the binding. */
  lemma XtractBinds(s: Session, conf: nat, d: EndpointDescriptor, pipe: nat)
    requires WellFormed(s) && s.bNumEP < TotalEndpoints && SlotOf(d) != 0 && pipe != 0
    ensures var filled := Xtract(s, conf, d, 0);
      Xtract(s, conf, d, pipe)
      == filled.(bNumEP := s.bNumEP + 1, ep := filled.ep[SlotOf(d) := filled.ep[SlotOf(d)].(hostPipeNum := pipe)])
  {
  }

  /**
   * A bulk IN endpoint and then a bulk OUT endpoint, both given pipes, bind
   * all three endpoints; any further callback leaves the bindings alone.
   */
  lemma BulkPairBinds(s: Session, conf: nat, din: EndpointDescriptor, dout: EndpointDescriptor, pin: nat, pout: nat,
                      conf3: nat, d3: EndpointDescriptor, p3: nat)
    requires WellFormed(s) && s.bNumEP == 1
    requires SlotOf(din) == EpDataInIndex && SlotOf(dout) == EpDataOutIndex && pin != 0 && pout != 0
    ensures var r := Xtract(Xtract(s, conf, din, pin), conf, dout, pout);
      r.bNumEP == TotalEndpoints && r.bConfNum == conf
      && r.ep[EpDataInIndex].hostPipeNum == pin && r.ep[EpDataOutIndex].hostPipeNum == pout
      && Xtract(r, conf3, d3, p3) == r
  {
  }

  /**
   * The session after the callback has seen `reports` in order, the
   * allocator answering the k-th callback with `pipes[k]` (ignored when the
   * callback asks for no pipe).
   */
  function XtractAll(s: Session, reports: seq<EndpointReport>, pipes: seq<nat>): (r: Session)
    requires WellFormed(s) && |pipes| == |reports|
    ensures WellFormed(r)
    decreases |reports|
  {
    if reports == [] then s
    else
      var n := |reports| - 1;
      Xtract(XtractAll(s, reports[..n], pipes[..n]), reports[n].conf, reports[n].ep, pipes[n])
  }

  /**
   * Over any run of callbacks the bound count never falls, grows by at most
   * one per callback and never passes three; once it is three, the callbacks
   * change nothing.
   */
  lemma {:induction false} XtractAllCount(s: Session, reports: seq<EndpointReport>, pipes: seq<nat>)
    requires WellFormed(s) && |pipes| == |reports|
    ensures s.bNumEP <= XtractAll(s, reports, pipes).bNumEP <= s.bNumEP + |reports|
    ensures s.bNumEP == TotalEndpoints ==> XtractAll(s, reports, pipes) == s
    ensures XtractAll(s, reports, pipes).bAddress == s.bAddress
    decreases |reports|
  {
    if reports != [] {
      var n := |reports| - 1;
      XtractAllCount(s, reports[..n], pipes[..n]);
      XtractEffect(XtractAll(s, reports[..n], pipes[..n]), reports[n].conf, reports[n].ep, pipes[n]);
    }
  }

  /**
   * The requests one callback makes on session `s`: a pipe allocation for a
   * data slot while fewer than three endpoints are bound, none otherwise.
   */
  function XtractCalls(s: Session, d: EndpointDescriptor, pipe: nat): seq<HostCall>
  {
    if s.bNumEP < TotalEndpoints && SlotOf(d) != 0 then
      [PipeAllocated(s.bAddress, EndpointNumber(d), if SlotOf(d) == EpDataInIndex then TokenIn else TokenOut,
                     PacketSize(d), pipe)]
    else []
  }

  /** The requests the callbacks make while seeing `reports`, as in `XtractAll`. */
  function XtractAllCalls(s: Session, reports: seq<EndpointReport>, pipes: seq<nat>): seq<HostCall>
    requires WellFormed(s) && |pipes| == |reports|
    decreases |reports|
  {
    if reports == [] then []
    else
      var n := |reports| - 1;
      XtractAllCalls(s, reports[..n], pipes[..n])
      + XtractCalls(XtractAll(s, reports[..n], pipes[..n]), reports[n].ep, pipes[n])
  }

  /**
   * One configuration read of the scan: the read's return code, the
   * endpoints the parser reported and the allocator's answer to each.
   */
  datatype ConfRead = ConfRead(rc: nat, reports: seq<EndpointReport>, pipes: seq<nat>)

  predicate Aligned(confReads: seq<ConfRead>)
  {
    forall j :: 0 <= j < |confReads| ==> |confReads[j].pipes| == |confReads[j].reports|
  }

  /** The session after the configuration reads `confReads`, configuration j being the j-th read. */
  function ScanSession(s: Session, confReads: seq<ConfRead>): (r: Session)
    requires WellFormed(s) && Aligned(confReads)
    ensures WellFormed(r)
    decreases |confReads|
  {
    if confReads == [] then s
    else
      var n := |confReads| - 1;
      XtractAll(ScanSession(s, confReads[..n]), confReads[n].reports, confReads[n].pipes)
  }

  /** The requests of one configuration read from session `s`: the read of configuration `conf` at `addr`, then its callbacks' allocations. */
  function ReadCalls(addr: nat, s: Session, conf: nat, read: ConfRead): seq<HostCall>
    requires WellFormed(s) && |read.pipes| == |read.reports|
  {
    [ConfDescrRead(addr, conf, read.rc, read.reports)] + XtractAllCalls(s, read.reports, read.pipes)
  }

  /** The requests of the scan that made the reads `confReads`: each read, then its callbacks' allocations. */
  function ScanCalls(s: Session, confReads: seq<ConfRead>): seq<HostCall>
    requires WellFormed(s) && Aligned(confReads)
    decreases |confReads|
  {
    if confReads == [] then []
    else
      var n := |confReads| - 1;
      ScanCalls(s, confReads[..n]) + ReadCalls(s.bAddress, ScanSession(s, confReads[..n]), n, confReads[n])
  }

  /** Seeing one more report extends the run of callbacks by one callback. */
  lemma ExtendCallbacks(s: Session, reports: seq<EndpointReport>, pipes: seq<nat>, k: nat, pipe: nat)
    requires WellFormed(s) && k < |reports| && |pipes| == k
    ensures XtractAll(s, reports[..k + 1], pipes + [pipe])
            == Xtract(XtractAll(s, reports[..k], pipes), reports[k].conf, reports[k].ep, pipe)
    ensures XtractAllCalls(s, reports[..k + 1], pipes + [pipe])
            == XtractAllCalls(s, reports[..k], pipes) + XtractCalls(XtractAll(s, reports[..k], pipes), reports[k].ep, pipe)
  {
    assert reports[..k + 1][..k] == reports[..k];
    assert (pipes + [pipe])[..k] == pipes;
  }

  /** One more configuration read extends the scan by that read and its callbacks. */
  lemma ExtendReads(s: Session, confReads: seq<ConfRead>, read: ConfRead)
    requires WellFormed(s) && Aligned(confReads) && |read.pipes| == |read.reports|
    ensures Aligned(confReads + [read])
    ensures ScanSession(s, confReads + [read]) == XtractAll(ScanSession(s, confReads), read.reports, read.pipes)
    ensures ScanCalls(s, confReads + [read])
            == ScanCalls(s, confReads) + ReadCalls(s.bAddress, ScanSession(s, confReads), |confReads|, read)
  {
    assert (confReads + [read])[..|confReads|] == confReads;
  }

  /**
   * `trace` follows the scan `confReads` from `s`: the first |trace| reads
   * succeeded and `trace[j]` is the bound count after read j.
   */
  ghost predicate Traced(s: Session, confReads: seq<ConfRead>, trace: seq<nat>)
    requires WellFormed(s) && Aligned(confReads)
  {
    |trace| <= |confReads|
    && forall j :: 0 <= j < |trace| ==>
         confReads[j].rc == 0 && trace[j] == ScanSession(s, confReads[..j + 1]).bNumEP
  }

  /** Another read keeps a trace of the earlier ones. */
  lemma TracedExtend(s: Session, confReads: seq<ConfRead>, trace: seq<nat>, read: ConfRead)
    requires WellFormed(s) && Aligned(confReads) && |read.pipes| == |read.reports|
    requires Traced(s, confReads, trace)
    ensures Aligned(confReads + [read]) && Traced(s, confReads + [read], trace)
  {
    forall j | 1 <= j <= |trace|
      ensures (confReads + [read])[..j] == confReads[..j]
    {
    }
  }

  /** A successful last read extends a trace of all the earlier ones by the bound count after it. */
  lemma TracedStep(s: Session, confReads: seq<ConfRead>, trace: seq<nat>)
    requires WellFormed(s) && Aligned(confReads) && Traced(s, confReads, trace)
    requires |trace| + 1 == |confReads| && confReads[|trace|].rc == 0
    ensures Traced(s, confReads, trace + [ScanSession(s, confReads).bNumEP])
  {
    assert confReads[..|trace| + 1] == confReads;
  }

  /** One more read, made from the session and after the requests the earlier reads left, continues the scan. */
  lemma ScanStep(s: Session, confReads: seq<ConfRead>, read: ConfRead,
                 calls0: seq<HostCall>, calls: seq<HostCall>)
    requires WellFormed(s) && Aligned(confReads) && |read.pipes| == |read.reports|
    requires calls == calls0 + ScanCalls(s, confReads) + ReadCalls(s.bAddress, ScanSession(s, confReads), |confReads|, read)
    ensures Aligned(confReads + [read])
    ensures XtractAll(ScanSession(s, confReads), read.reports, read.pipes) == ScanSession(s, confReads + [read])
    ensures calls == calls0 + ScanCalls(s, confReads + [read])
  {
    ExtendReads(s, confReads, read);
    AppendAssociates(calls0, ScanCalls(s, confReads), ReadCalls(s.bAddress, ScanSession(s, confReads), |confReads|, read));
  }

  lemma AppendAssociates<T>(a: seq<T>, b: seq<T>, c: seq<T>)
    ensures a + b + c == a + (b + c)
  {
  }

  /** The session after `Release`: unbound, control endpoint only, table kept. */
  function Released(s: Session): (r: Session)
    ensures r.bAddress == 0 && r.bNumEP == 1
    ensures r.bConfNum == s.bConfNum && r.ep == s.ep
  {
    s.(bAddress := 0, bNumEP := 1)
  }

  /** Releasing twice leaves the same fields as releasing once. */
  lemma ReleaseIdempotent(s: Session)
    ensures Released(Released(s)) == Released(s)
  {
  }

  /** The bulk IN and bulk OUT slots are distinct slots of the three-slot table, apart from the control slot. */
  lemma EndpointSlots()
    ensures 0 < EpDataInIndex < TotalEndpoints && 0 < EpDataOutIndex < TotalEndpoints
    ensures EpDataInIndex != EpDataOutIndex
  {
  }

  /** The requests `Release` makes: both data pipes, then the address. */
  function ReleaseCalls(s: Session): seq<HostCall>
    requires |s.ep| == TotalEndpoints
  {
    [PipeFreed(s.ep[EpDataInIndex].hostPipeNum), PipeFreed(s.ep[EpDataOutIndex].hostPipeNum), AddressFreed(s.bAddress)]
  }

  /** The session once a new address is taken and EP0's packet size read from the device descriptor. */
  function Addressed(s: Session, descr: DeviceDescriptor, addr: nat): (r: Session)
    requires |s.ep| == TotalEndpoints
    ensures WellFormed(s) ==> WellFormed(r)
    ensures r.bAddress == addr && r.bNumEP == s.bNumEP && r.bConfNum == s.bConfNum
  {
    s.(bAddress := addr, ep := s.ep[0 := s.ep[0].(maxPktSize := ControlPacketSize(descr))])
  }

  /** The address pool once record 0's low-speed flag is cleared. */
  function ClearedLowSpeed(records: map<nat, DevRecord>): map<nat, DevRecord>
    requires 0 in records
  {
    records[0 := records[0].(lowspeed := false)]
  }

  /** The pipe the callback's allocation returned, if it made one. */
  ghost function AllocatedPipe(before: seq<HostCall>, after: seq<HostCall>): nat
  {
    if |after| > |before| && after[|before|].PipeAllocated? then after[|before|].pipe else 0
  }

  /** Requests of a configuration scan: configuration reads and pipe allocations only. */
  ghost predicate ScanLog(calls: seq<HostCall>)
  {
    forall k :: 0 <= k < |calls| ==> calls[k].ConfDescrRead? || calls[k].PipeAllocated?
  }

  /** The callbacks' requests are pipe allocations only. */
  lemma {:induction false} XtractAllCallsLog(s: Session, reports: seq<EndpointReport>, pipes: seq<nat>)
    requires WellFormed(s) && |pipes| == |reports|
    ensures forall k :: 0 <= k < |XtractAllCalls(s, reports, pipes)| ==> XtractAllCalls(s, reports, pipes)[k].PipeAllocated?
    decreases |reports|
  {
    if reports != [] {
      var n := |reports| - 1;
      XtractAllCallsLog(s, reports[..n], pipes[..n]);
    }
  }

  /** A scan makes configuration reads and pipe allocations only. */
  lemma {:induction false} ScanCallsLog(s: Session, confReads: seq<ConfRead>)
    requires WellFormed(s) && Aligned(confReads)
    ensures ScanLog(ScanCalls(s, confReads))
    decreases |confReads|
  {
    if confReads != [] {
      var n := |confReads| - 1;
      assert Aligned(confReads[..n]);
      ScanCallsLog(s, confReads[..n]);
      XtractAllCallsLog(ScanSession(s, confReads[..n]), confReads[n].reports, confReads[n].pipes);
    }
  }

  /**
   * A scan keeps the address, never unbinds an endpoint, and changes nothing
   * once three endpoints are bound.
   */
  lemma {:induction false} ScanSessionCount(s: Session, confReads: seq<ConfRead>)
    requires WellFormed(s) && Aligned(confReads)
    ensures ScanSession(s, confReads).bAddress == s.bAddress
    ensures s.bNumEP <= ScanSession(s, confReads).bNumEP
    ensures s.bNumEP == TotalEndpoints ==> ScanSession(s, confReads) == s
    decreases |confReads|
  {
    if confReads != [] {
      var n := |confReads| - 1;
      assert Aligned(confReads[..n]);
      ScanSessionCount(s, confReads[..n]);
      XtractAllCount(ScanSession(s, confReads[..n]), confReads[n].reports, confReads[n].pipes);
    }
  }

  /** The requests that give the device address `held`: descriptor read, allocation, SET_ADDRESS. */
  function Addressing(descr: DeviceDescriptor, parent: nat, port: nat, held: nat): seq<HostCall>
  {
    [DevDescrRead(0, descr), AddressAllocated(parent, port, held), AddressSet(held, 0)]
  }

  /** The binding of the whole endpoint table, made only when the scan found three endpoints. */
  function FullBinding(held: nat, scanned: nat): seq<HostCall>
  {
    if scanned == TotalEndpoints then [EpInfoBound(held, TotalEndpoints, 0)] else []
  }

  /** Which way `Init` returned. */
  datatype InitExit =
    | AlreadyInUse | PseudoDeviceMissing | PseudoEpInfoNull
    | DevDescrFailed | SetAddrFailed | AddressRecordMissing
    | EpInfoEntryFailed | ConfDescrFailed | FullEpInfoEntryFailed | SetConfFailed
    | Configured
    | AddressAssigned  // not a return of `Init`: the address is assigned and enumeration goes on
  {
    /** Returned before touching anything. */
    predicate Early()
    {
      AlreadyInUse? || PseudoDeviceMissing? || PseudoEpInfoNull?
    }

    /** Returned through the `Fail` label, that is, after `Release`. */
    predicate ThroughFail()
    {
      DevDescrFailed? || EpInfoEntryFailed? || ConfDescrFailed? || FullEpInfoEntryFailed? || SetConfFailed?
    }

    /** Returned while reading the device descriptor or giving the device its address. */
    predicate WhileAddressing()
    {
      DevDescrFailed? || SetAddrFailed? || AddressRecordMissing?
    }

    /** Got as far as binding the control endpoint table to the new address. */
    predicate Bound()
    {
      EpInfoEntryFailed? || ConfDescrFailed? || FullEpInfoEntryFailed? || SetConfFailed? || Configured?
    }

    /** Finished the configuration scan. */
    predicate Scanned()
    {
      FullEpInfoEntryFailed? || SetConfFailed? || Configured?
    }
  }

  /**
   * The requests made once the scan is over, from the session `s` it left:
   * Release after a failed read; otherwise the binding of the whole table
   * when three endpoints are bound (Release if that fails), then
   * SET_CONFIGURATION answered with `rc`, and Release unless it succeeded.
   */
  function AfterScanCalls(exit: InitExit, rc: nat, s: Session): seq<HostCall>
    requires |s.ep| == TotalEndpoints
  {
    if exit.ConfDescrFailed? then ReleaseCalls(s)
    else if exit.FullEpInfoEntryFailed? then [EpInfoBound(s.bAddress, TotalEndpoints, rc)] + ReleaseCalls(s)
    else
      FullBinding(s.bAddress, s.bNumEP) + [ConfigurationSet(s.bAddress, s.bConfNum, rc)]
      + if exit.Configured? then [] else ReleaseCalls(s)
  }

  /**
   * The requests `Configure` makes from session `start`, returning `exit`
   * with code `rc`: the binding of the control endpoint (Release if that
   * fails), then the scan `confReads`, then what follows the scan from the
   * session `scanned` it left.
   */
  function ConfigureCalls(exit: InitExit, rc: nat, start: Session, confReads: seq<ConfRead>, scanned: Session): seq<HostCall>
    requires WellFormed(start) && Aligned(confReads) && |scanned.ep| == TotalEndpoints
  {
    if exit.EpInfoEntryFailed? then [EpInfoBound(start.bAddress, 1, rc)] + ReleaseCalls(start)
    else [EpInfoBound(start.bAddress, 1, 0)] + ScanCalls(start, confReads) + AfterScanCalls(exit, rc, scanned)
  }

  /**
   * How the configuration scan from `start` ended for the return `exit` with
   * code `rc`, on a device with `numConf` configurations. At most `numConf`
   * reads were made, and `trace` holds the bound count after each successful
   * one. Every read but the last left fewer than three endpoints bound. The
   * scan stopped at a failed read, after the last configuration, or once
   * three endpoints were bound; `scanned` is the session it left.
   */
  ghost predicate ScanReport(exit: InitExit, rc: nat, numConf: nat, start: Session,
                             confReads: seq<ConfRead>, trace: seq<nat>, scanned: Session)
  {
    WellFormed(start) && Aligned(confReads)
    && |confReads| <= numConf && Traced(start, confReads, trace)
    && (exit.EpInfoEntryFailed? ==> confReads == [])
    && (exit.ConfDescrFailed? ==>
          |confReads| == |trace| + 1 && confReads[|trace|].rc == rc
          && forall j :: 0 <= j < |trace| ==> trace[j] < TotalEndpoints)
    && (exit.Scanned() ==>
          |confReads| == |trace|
          && (forall j :: 0 <= j < |trace| - 1 ==> trace[j] < TotalEndpoints)
          && (|trace| == numConf || (trace != [] && trace[|trace| - 1] == TotalEndpoints))
          && scanned.bNumEP == (if trace == [] then start.bNumEP else trace[|trace| - 1]))
    && (exit.FullEpInfoEntryFailed? ==> scanned.bNumEP == TotalEndpoints)
  }

  class CDC {
    const host: Host
    const epInfo: array<EpInfo>
    var bAddress: nat   // 0 = no address
    var bConfNum: nat
    var bNumEP: nat     // endpoints bound, control endpoint included

    ghost predicate Valid()
      reads this
    {
      epInfo.Length == TotalEndpoints && 1 <= bNumEP <= TotalEndpoints
    }

    ghost function State(): (s: Session)
      reads this, epInfo
      ensures Valid() ==> WellFormed(s)
    {
      Session(bAddress, bConfNum, bNumEP, epInfo[..])
    }

    /** A fresh, unbound session; the configuration number is left undefined. */
    constructor (host: Host)
      ensures Valid() && fresh(epInfo) && this.host == host
      ensures bAddress == 0 && bNumEP == 1
      ensures forall i :: 0 <= i < TotalEndpoints ==>
        epInfo[i].deviceEpNum == 0 && epInfo[i].hostPipeNum == 0
        && !epInfo[i].sndToggle && !epInfo[i].rcvToggle
      ensures epInfo[0].maxPktSize == 8 && epInfo[0].nakPower == NakMaxPower
      ensures forall i :: 0 < i < TotalEndpoints ==> epInfo[i].maxPktSize == 0 && epInfo[i].nakPower == NakNoWait
    {
      var table := new EpInfo[TotalEndpoints];
      for i := 0 to TotalEndpoints
        invariant forall k :: 0 <= k < i ==>
          table[k] == EpInfo(0, 0, if k == 0 then 8 else 0, false, false, if k == 0 then NakMaxPower else NakNoWait)
      {
        // epAttribs = 0 clears both toggles before the NAK power is set
        table[i] := EpInfo(0, 0, if i == 0 then 8 else 0, false, false, if i == 0 then NakMaxPower else NakNoWait);
      }
      this.host := host;
      epInfo := table;
      bAddress := 0;
      bNumEP := 1;
      bConfNum := *;
    }

    method GetAddress() returns (addr: nat)
      ensures addr == bAddress
    {
      addr := bAddress;
    }

    method Poll() returns (rc: nat)
      ensures rc == 0
    {
      rc := 0;
    }

    /** The callback the configuration-descriptor parser calls for each endpoint it finds. */
    method EndpointXtract(conf: nat, iface: nat, alt: nat, proto: nat, pep: EndpointDescriptor)
      requires Valid()
      modifies this`bConfNum, this`bNumEP, epInfo, host`calls
      ensures Valid()
      ensures host.calls == old(host.calls) + XtractCalls(old(State()), pep, AllocatedPipe(old(host.calls), host.calls))
      ensures State() == Xtract(old(State()), conf, pep, AllocatedPipe(old(host.calls), host.calls))
    {
      if bNumEP == TotalEndpoints {
        return;
      }
      ghost var s0 := State();
      bConfNum := conf;
      var index: nat := 0;
      var pipe: nat := 0;
      if pep.bmAttributes & 0x02 == 2 {
        index := if pep.bEndpointAddress & 0x80 == 0x80 then EpDataInIndex else EpDataOutIndex;
      }
      assert index == SlotOf(pep);
      epInfo[index] := epInfo[index].(deviceEpNum := EndpointNumber(pep),
                                      maxPktSize := PacketSize(pep));
      ghost var filled := State();
      assert filled == Xtract(s0, conf, pep, 0);
      if index != 0 {
        var token := if index == EpDataInIndex then TokenIn else TokenOut;
        pipe := host.PipeAlloc(bAddress, epInfo[index].deviceEpNum, token, epInfo[index].maxPktSize);
      }
      assert pipe == AllocatedPipe(old(host.calls), host.calls);
      if pipe == 0 {
        return;
      }
      var bound := epInfo[index].(hostPipeNum := pipe);
      epInfo[index] := bound;
      bNumEP := bNumEP + 1;
      assert epInfo[..] == filled.ep[index := bound];
      XtractBinds(s0, conf, pep, pipe);
    }

    /** Ends the session: frees both data pipes and the address. */
    method Release() returns (rc: nat)
      requires Valid()
      modifies this`bAddress, this`bNumEP, host`calls
      ensures Valid() && rc == 0
      ensures State() == Released(old(State()))
      ensures host.calls == old(host.calls) + ReleaseCalls(old(State()))
    {
      host.PipeFree(epInfo[EpDataInIndex].hostPipeNum);
      host.PipeFree(epInfo[EpDataOutIndex].hostPipeNum);
      host.FreeAddress(bAddress);
      bNumEP := 1;
      bAddress := 0;
      rc := 0;
    }

    /** Bulk IN from the bound IN endpoint: at most `bytesRcvd` bytes land at the start of `dataptr`. */
    method RcvData(bytesRcvd: nat, dataptr: array<byte>) returns (rc: nat, rcvd: nat)
      requires Valid() && bytesRcvd <= dataptr.Length
      modifies host`calls, dataptr
      ensures rcvd <= bytesRcvd
      ensures host.calls == old(host.calls) + [InTransfer(bAddress, old(epInfo[EpDataInIndex].deviceEpNum), bytesRcvd, rc, dataptr[..rcvd])]
      ensures dataptr[rcvd..] == old(dataptr[rcvd..])
    {
      var data;
      rc, data := host.InTransfer(bAddress, epInfo[EpDataInIndex].deviceEpNum, bytesRcvd);
      forall i | 0 <= i < |data| {
        dataptr[i] := data[i];
      }
      rcvd := |data|;
      assert dataptr[..rcvd] == data;
    }

    /** Bulk OUT of `data` (the byte count is |data|) to the bound OUT endpoint. */
    method SndData(data: seq<byte>) returns (rc: nat)
      requires Valid()
      modifies host`calls
      ensures host.calls == old(host.calls) + [OutTransfer(bAddress, epInfo[EpDataOutIndex].deviceEpNum, data, rc)]
    {
      rc := host.OutTransfer(bAddress, epInfo[EpDataOutIndex].deviceEpNum, data);
    }

    /**
     * The configuration loop of `Init`: reads configurations 0, 1, ... and
     * feeds their endpoints to the callback, stopping at a failed read, after
     * the first configuration that leaves more than two endpoints bound, or
     * after the last one. `confReads` holds each read with the allocator's
     * answers, `trace` the value of `bNumEP` after each successful read.
     */
    method ScanConfigurations(numConf: nat) returns (rc: nat, ghost confReads: seq<ConfRead>, ghost trace: seq<nat>)
      requires Valid()
      modifies this`bConfNum, this`bNumEP, epInfo, host`calls
      ensures Valid() && Aligned(confReads)
      ensures State() == ScanSession(old(State()), confReads)
      ensures host.calls == old(host.calls) + ScanCalls(old(State()), confReads)
      ensures |confReads| <= numConf
      ensures |trace| == (if rc == 0 then |confReads| else |confReads| - 1)
      ensures rc != 0 ==> confReads[|trace|].rc == rc
      ensures Traced(old(State()), confReads, trace)
      ensures forall j :: 0 <= j < |trace| - 1 ==> trace[j] < TotalEndpoints
      ensures rc != 0 ==> forall j :: 0 <= j < |trace| ==> trace[j] < TotalEndpoints
      ensures rc == 0 ==> |trace| == numConf || (trace != [] && trace[|trace| - 1] == TotalEndpoints)
      ensures rc == 0 ==> bNumEP == if trace == [] then old(bNumEP) else trace[|trace| - 1]
    {
      ghost var s0, calls0 := State(), host.calls;
      rc := 0;
      confReads, trace := [], [];
      var i: nat := 0;
      while i < numConf
        invariant Valid() && Aligned(confReads) && i == |confReads| == |trace| <= numConf
        invariant State() == ScanSession(s0, confReads)
        invariant host.calls == calls0 + ScanCalls(s0, confReads)
        invariant Traced(s0, confReads, trace)
        invariant forall j :: 0 <= j < |trace| ==> trace[j] < TotalEndpoints
        invariant bNumEP == if trace == [] then old(bNumEP) else trace[|trace| - 1]
        invariant rc == 0
      {
        rc, confReads, trace := ScanRound(i, s0, calls0, confReads, trace);
        if rc != 0 {
          return;
        }
        if bNumEP > 2 {
          break;
        }
        i := i + 1;
      }
    }

    /**
     * One round of the configuration loop: reads configuration `conf` and
     * extends the reads, and the trace when the read succeeds. The round is
     * split over this method, `ScanNext` and the lemma `ScanStep` only to
     * keep each proof small.
     */
    method ScanRound(conf: nat, ghost s0: Session, ghost calls0: seq<HostCall>, ghost confReads: seq<ConfRead>, ghost trace: seq<nat>)
      returns (rc: nat, ghost confReads': seq<ConfRead>, ghost trace': seq<nat>)
      requires Valid() && WellFormed(s0) && Aligned(confReads) && bAddress == s0.bAddress && conf == |confReads| == |trace|
      requires State() == ScanSession(s0, confReads) && host.calls == calls0 + ScanCalls(s0, confReads)
      requires Traced(s0, confReads, trace)
      modifies this`bConfNum, this`bNumEP, epInfo, host`calls
      ensures Valid() && Aligned(confReads') && |confReads'| == |confReads| + 1 && confReads'[conf].rc == rc
      ensures State() == ScanSession(s0, confReads') && host.calls == calls0 + ScanCalls(s0, confReads')
      ensures trace' == if rc == 0 then trace + [bNumEP] else trace
      ensures Traced(s0, confReads', trace')
    {
      ghost var read;
      rc, read := ScanNext(conf, s0, calls0, confReads);
      TracedExtend(s0, confReads, trace, read);
      confReads' := confReads + [read];
      trace' := trace;
      if rc == 0 {
        TracedStep(s0, confReads', trace);
        trace' := trace + [bNumEP];
      }
    }

    /**
     * Configuration read `conf` of a scan that started from session `s0`
     * with the request log `calls0` and has made the reads `confReads`:
     * `ReadConfiguration` restated in terms of the whole scan, a split that
     * exists only to keep the proof of `ScanRound` small.
     */
    method ScanNext(conf: nat, ghost s0: Session, ghost calls0: seq<HostCall>, ghost confReads: seq<ConfRead>)
      returns (rc: nat, ghost read: ConfRead)
      requires Valid() && WellFormed(s0) && Aligned(confReads) && bAddress == s0.bAddress && conf == |confReads|
      requires State() == ScanSession(s0, confReads) && host.calls == calls0 + ScanCalls(s0, confReads)
      modifies this`bConfNum, this`bNumEP, epInfo, host`calls
      ensures Valid() && Aligned(confReads + [read]) && read.rc == rc && |read.pipes| == |read.reports|
      ensures State() == ScanSession(s0, confReads + [read])
      ensures host.calls == calls0 + ScanCalls(s0, confReads + [read])
    {
      rc, read := ReadConfiguration(conf);
      ScanStep(s0, confReads, read, calls0, host.calls);
    }

    /**
     * One configuration read of the scan: reads configuration `conf` and
     * feeds each endpoint the parser reports to the callback, in order,
     * whether or not the read succeeds.
     */
    method ReadConfiguration(conf: nat) returns (rc: nat, ghost read: ConfRead)
      requires Valid()
      modifies this`bConfNum, this`bNumEP, epInfo, host`calls
      ensures Valid() && read.rc == rc && |read.pipes| == |read.reports|
      ensures State() == XtractAll(old(State()), read.reports, read.pipes)
      ensures host.calls == old(host.calls) + ReadCalls(bAddress, old(State()), conf, read)
    {
      ghost var s0 := State();
      var reports;
      rc, reports := host.GetConfDescr(bAddress, conf);
      ghost var calls0 := host.calls;
      ghost var pipes: seq<nat> := [];
      var k := 0;
      while k < |reports|
        invariant Valid() && k <= |reports| && |pipes| == k
        invariant State() == XtractAll(s0, reports[..k], pipes)
        invariant host.calls == calls0 + XtractAllCalls(s0, reports[..k], pipes)
      {
        var r := reports[k];
        ghost var before := host.calls;
        EndpointXtract(r.conf, r.iface, r.alt, r.proto, r.ep);
        ExtendCallbacks(s0, reports, pipes, k, AllocatedPipe(before, host.calls));
        AppendAssociates(calls0, XtractAllCalls(s0, reports[..k], pipes),
                         XtractCalls(XtractAll(s0, reports[..k], pipes), r.ep, AllocatedPipe(before, host.calls)));
        pipes := pipes + [AllocatedPipe(before, host.calls)];
        k := k + 1;
      }
      assert reports[..k] == reports;
      read := ConfRead(rc, reports, pipes);
      AppendAssociates(old(host.calls), [ConfDescrRead(bAddress, conf, rc, reports)], XtractAllCalls(s0, reports, pipes));
    }

    /** Reads the device descriptor through address 0, lending our endpoint table to its record meanwhile. */
    method ReadDeviceDescriptor(lowspeed: bool) returns (rc: nat, descr: DeviceDescriptor)
      requires 0 in host.records && host.records[0].epinfo != null
      modifies host
      ensures host.calls == old(host.calls) + [DevDescrRead(rc, descr)]
      ensures host.records == old(host.records)[0 := old(host.records)[0].(lowspeed := lowspeed)]
    {
      var p := host.records[0];
      var oldepPtr := p.epinfo;
      host.records := host.records[0 := p.(epinfo := epInfo, lowspeed := lowspeed)];
      rc, descr := host.GetDevDescr();
      host.records := host.records[0 := host.records[0].(epinfo := oldepPtr)];
    }

    /**
     * The first half of `Init`, from the checks that the session and address
     * 0 are free to the lookup of the new address's record. A return code of
     * 0 means enumeration goes on; otherwise `exit` names the return taken.
     */
    method Address(parent: nat, port: nat, lowspeed: bool)
      returns (rc: nat, descr: DeviceDescriptor, ghost exit: InitExit, ghost held: nat)
      requires Valid()
      modifies this`bAddress, this`bNumEP, epInfo, host
      ensures Valid()
      ensures exit.Early() || exit.WhileAddressing() || exit.AddressAssigned?
      ensures rc != 0 <==> !exit.AddressAssigned?
      // the early exits change nothing
      ensures exit.AlreadyInUse? <==> old(bAddress) != 0
      ensures exit.PseudoDeviceMissing? <==> old(bAddress) == 0 && 0 !in old(host.records)
      ensures exit.PseudoEpInfoNull? <==> old(bAddress) == 0 && 0 in old(host.records) && old(host.records)[0].epinfo == null
      ensures exit.AlreadyInUse? ==> rc == UsbErrorClassInstanceAlreadyInUse
      ensures exit.PseudoDeviceMissing? ==> rc == UsbErrorAddressNotFoundInPool
      ensures exit.PseudoEpInfoNull? ==> rc == UsbErrorEpInfoIsNull
      ensures exit.Early() ==> State() == old(State()) && host.records == old(host.records) && host.calls == old(host.calls)
      ensures exit.DevDescrFailed? ==>
        held == 0 && State() == Released(old(State()))
        && host.records == old(host.records)[0 := old(host.records)[0].(lowspeed := lowspeed)]
        && host.calls == old(host.calls) + [DevDescrRead(rc, descr)] + ReleaseCalls(old(State()))
      ensures exit.SetAddrFailed? ==>
        State() == Addressed(old(State()), descr, 0)
        && host.records == ClearedLowSpeed(old(host.records))
        && host.calls == old(host.calls) + [DevDescrRead(0, descr), AddressAllocated(parent, port, held), AddressSet(held, rc), AddressFreed(held)]
      ensures exit.AddressRecordMissing? ==>
        rc == UsbErrorAddressNotFoundInPool && held != 0 && held !in host.records
        && host.records == ClearedLowSpeed(old(host.records))
      ensures exit.AddressRecordMissing? || rc == 0 ==>
        State() == Addressed(old(State()), descr, held)
        && host.calls == old(host.calls) + Addressing(descr, parent, port, held)
      ensures rc == 0 ==>
        held in old(host.records)
        && host.records == ClearedLowSpeed(old(host.records))[held := ClearedLowSpeed(old(host.records))[held].(lowspeed := lowspeed)]
    {
      held, descr := 0, DeviceDescriptor(0, 0);
      if bAddress != 0 {
        rc, exit := UsbErrorClassInstanceAlreadyInUse, AlreadyInUse;
        return;
      }
      if 0 !in host.records {
        rc, exit := UsbErrorAddressNotFoundInPool, PseudoDeviceMissing;
        return;
      }
      if host.records[0].epinfo == null {
        rc, exit := UsbErrorEpInfoIsNull, PseudoEpInfoNull;
        return;
      }
      rc, descr := ReadDeviceDescriptor(lowspeed);
      if rc != 0 {
        exit := DevDescrFailed;
        var _ := Release();
        return;
      }
      rc, exit, held := AssignAddress(parent, port, lowspeed, descr);
    }

    /**
     * The part of `Address` after the device descriptor is read: allocates an
     * address, sets EP0's packet size and sends SET_ADDRESS, undoing the
     * allocation by hand when that fails, then moves the speed flag from
     * record 0 to the new address's record.
     */
    method AssignAddress(parent: nat, port: nat, lowspeed: bool, descr: DeviceDescriptor)
      returns (rc: nat, ghost exit: InitExit, ghost held: nat)
      requires Valid() && 0 in host.records
      modifies this`bAddress, epInfo, host
      ensures Valid()
      ensures exit.SetAddrFailed? || exit.AddressRecordMissing? || exit.AddressAssigned?
      ensures rc != 0 <==> !exit.AddressAssigned?
      ensures exit.SetAddrFailed? ==>
        State() == Addressed(old(State()), descr, 0)
        && host.records == ClearedLowSpeed(old(host.records))
        && host.calls == old(host.calls) + [AddressAllocated(parent, port, held), AddressSet(held, rc), AddressFreed(held)]
      ensures exit.AddressRecordMissing? ==>
        rc == UsbErrorAddressNotFoundInPool && held != 0 && held !in host.records
        && host.records == ClearedLowSpeed(old(host.records))
      ensures exit.AddressRecordMissing? || rc == 0 ==>
        State() == Addressed(old(State()), descr, held)
        && host.calls == old(host.calls) + [AddressAllocated(parent, port, held), AddressSet(held, 0)]
      ensures rc == 0 ==>
        held in old(host.records)
        && host.records == ClearedLowSpeed(old(host.records))[held := ClearedLowSpeed(old(host.records))[held].(lowspeed := lowspeed)]
    {
      ghost var start := State();
      ghost var records0 := host.records;
      bAddress := host.AllocAddress(parent, port);
      held := bAddress;
      epInfo[0] := epInfo[0].(maxPktSize := ControlPacketSize(descr));
      assert State() == Addressed(start, descr, held);
      rc := host.SetAddr(bAddress);
      if rc != 0 {
        host.records := host.records[0 := host.records[0].(lowspeed := false)];
        host.FreeAddress(bAddress);
        bAddress := 0;
        exit := SetAddrFailed;
        return;
      }
      host.records := host.records[0 := host.records[0].(lowspeed := false)];
      assert host.records == ClearedLowSpeed(records0);

      if bAddress !in host.records {
        rc, exit := UsbErrorAddressNotFoundInPool, AddressRecordMissing;
        return;
      }
      host.records := host.records[bAddress := host.records[bAddress].(lowspeed := lowspeed)];
      exit := AddressAssigned;
    }

    /**
     * The second half of `Init`, from binding the control endpoint to
     * SET_CONFIGURATION, for a device descriptor `descr` and the device's
     * new address in `bAddress`; `exit` names the return taken, `confReads`
     * and `trace` describe the scan and `scanned` is the session it left.
     */
    method Configure(descr: DeviceDescriptor)
      returns (rc: nat, ghost exit: InitExit, ghost confReads: seq<ConfRead>, ghost trace: seq<nat>, ghost scanned: Session)
      requires Valid()
      modifies this`bAddress, this`bConfNum, this`bNumEP, epInfo, host`calls
      ensures Valid() && Aligned(confReads)
      ensures exit.Bound() && (rc == 0 <==> exit.Configured?)
      ensures scanned == ScanSession(old(State()), confReads)
      ensures State() == if exit.Configured? then scanned else Released(scanned)
      ensures host.calls == old(host.calls) + ConfigureCalls(exit, rc, old(State()), confReads, scanned)
      ensures ScanReport(exit, rc, ConfigurationCount(descr), old(State()), confReads, trace, scanned)
    {
      ghost var start := State();
      confReads, trace, scanned := [], [], start;
      rc := host.SetEpInfoEntry(bAddress, 1, epInfo);
      assert State() == start;
      if rc != 0 {
        exit := EpInfoEntryFailed;
        var _ := Release();
        assert ScanReport(exit, rc, ConfigurationCount(descr), start, [], [], start);
        return;
      }
      ghost var bound := [EpInfoBound(bAddress, 1, 0)];
      rc, exit, confReads, trace, scanned := ScanAndSelect(descr);
      ghost var scan := ScanCalls(start, confReads);
      assert ConfigureCalls(exit, rc, start, confReads, scanned) == bound + scan + AfterScanCalls(exit, rc, scanned);
      AppendAssociates(old(host.calls), bound, scan);
      AppendAssociates(old(host.calls), bound + scan, AfterScanCalls(exit, rc, scanned));
    }

    /**
     * The part of `Configure` after the control endpoint is bound: the
     * configuration scan, then `Select`; `exit` names the return taken and
     * `scanned` is the session the scan left.
     */
    method ScanAndSelect(descr: DeviceDescriptor)
      returns (rc: nat, ghost exit: InitExit, ghost confReads: seq<ConfRead>, ghost trace: seq<nat>, ghost scanned: Session)
      requires Valid()
      modifies this`bAddress, this`bConfNum, this`bNumEP, epInfo, host`calls
      ensures Valid() && Aligned(confReads)
      ensures (exit.ConfDescrFailed? || exit.Scanned()) && (rc == 0 <==> exit.Configured?)
      ensures scanned == ScanSession(old(State()), confReads)
      ensures State() == if exit.Configured? then scanned else Released(scanned)
      ensures host.calls == old(host.calls) + ScanCalls(old(State()), confReads) + AfterScanCalls(exit, rc, scanned)
      ensures ScanReport(exit, rc, ConfigurationCount(descr), old(State()), confReads, trace, scanned)
    {
      rc, confReads, trace := ScanConfigurations(ConfigurationCount(descr));
      scanned := State();
      if rc != 0 {
        exit := ConfDescrFailed;
        var _ := Release();
        return;
      }
      rc, exit := Select();
    }

    /**
     * The last steps of `Init`, once the scan is over: binds the whole
     * endpoint table when the scan found three endpoints, then selects
     * configuration `bConfNum`; `exit` names the return taken.
     */
    method Select() returns (rc: nat, ghost exit: InitExit)
      requires Valid()
      modifies this`bAddress, this`bNumEP, host`calls
      ensures Valid()
      ensures exit.Scanned() && (rc == 0 <==> exit.Configured?)
      ensures exit.FullEpInfoEntryFailed? ==> old(bNumEP) == TotalEndpoints
      ensures State() == if exit.Configured? then old(State()) else Released(old(State()))
      ensures host.calls == old(host.calls) + AfterScanCalls(exit, rc, old(State()))
    {
      if bNumEP == TotalEndpoints {
        rc := host.SetEpInfoEntry(bAddress, TotalEndpoints, epInfo);
        if rc != 0 {
          exit := FullEpInfoEntryFailed;
          var _ := Release();
          return;
        }
      }
      assert host.calls == old(host.calls) + FullBinding(bAddress, bNumEP);

      rc := host.SetConf(bAddress, bConfNum);
      if rc != 0 {
        exit := SetConfFailed;
        var _ := Release();
        return;
      }
      exit := Configured;
    }

    /**
     * Enumerates the device at address 0: reads its device descriptor, gives
     * it a new address, binds the control endpoint, scans its configurations
     * for the data endpoints, binds all three endpoints when there are three,
     * and selects the configuration. The ghost results name the return taken
     * (`exit`), the device descriptor read (`descr`), the address held at that
     * point (`held`), the session once addressed (`addressed`), the
     * configuration reads of the scan with the allocator's answers
     * (`confReads`), the scan's per-configuration endpoint counts (`trace`)
     * and the session the scan left (`scanned`).
     */
    method Init(parent: nat, port: nat, lowspeed: bool)
      returns (rc: nat, ghost exit: InitExit, ghost descr: DeviceDescriptor, ghost held: nat, ghost addressed: Session,
               ghost confReads: seq<ConfRead>, ghost trace: seq<nat>, ghost scanned: Session)
      requires Valid()
      modifies this, epInfo, host
      ensures Valid() && WellFormed(addressed) && Aligned(confReads)
      ensures rc == 0 <==> exit.Configured?
      ensures !exit.AddressAssigned?
      // the early exits change nothing
      ensures exit.AlreadyInUse? <==> old(bAddress) != 0
      ensures exit.PseudoDeviceMissing? <==> old(bAddress) == 0 && 0 !in old(host.records)
      ensures exit.PseudoEpInfoNull? <==> old(bAddress) == 0 && 0 in old(host.records) && old(host.records)[0].epinfo == null
      ensures exit.AlreadyInUse? ==> rc == UsbErrorClassInstanceAlreadyInUse
      ensures exit.PseudoDeviceMissing? ==> rc == UsbErrorAddressNotFoundInPool
      ensures exit.PseudoEpInfoNull? ==> rc == UsbErrorEpInfoIsNull
      ensures exit.Early() ==> State() == old(State()) && host.records == old(host.records) && host.calls == old(host.calls)
      // the address pool: record 0 gets its endpoint table back; the speed flags
      ensures exit.DevDescrFailed? ==> host.records == old(host.records)[0 := old(host.records)[0].(lowspeed := lowspeed)]
      ensures exit.SetAddrFailed? || exit.AddressRecordMissing? ==> host.records == ClearedLowSpeed(old(host.records))
      ensures exit.Bound() ==>
        held in old(host.records)
        && host.records == ClearedLowSpeed(old(host.records))[held := ClearedLowSpeed(old(host.records))[held].(lowspeed := lowspeed)]
      // every return through Fail releases the session and passes the failing code on
      ensures exit.ThroughFail() ==> rc != 0 && bAddress == 0 && bNumEP == 1
      ensures exit.DevDescrFailed? ==>
        held == 0 && State() == Released(old(State()))
        && host.calls == old(host.calls) + [DevDescrRead(rc, descr)] + ReleaseCalls(old(State()))
      // a failed SET_ADDRESS is rolled back by hand, without Release
      ensures exit.SetAddrFailed? ==>
        rc != 0 && State() == Addressed(old(State()), descr, 0)
        && host.calls == old(host.calls) + [DevDescrRead(0, descr), AddressAllocated(parent, port, held), AddressSet(held, rc), AddressFreed(held)]
      // a missing record for the new address returns with the address still held
      ensures exit.AddressRecordMissing? ==>
        rc == UsbErrorAddressNotFoundInPool && held != 0 && held !in host.records
        && State() == Addressed(old(State()), descr, held)
        && host.calls == old(host.calls) + Addressing(descr, parent, port, held)
      // from here on: the session with the new address and EP0's packet size, then Configure
      ensures exit.Bound() ==>
        addressed == Addressed(old(State()), descr, held)
        && scanned == ScanSession(addressed, confReads)
        && State() == (if exit.Configured? then scanned else Released(scanned))
        && host.calls == old(host.calls) + Addressing(descr, parent, port, held)
                         + ConfigureCalls(exit, rc, addressed, confReads, scanned)
      // the configuration scan stops after the first configuration that leaves three endpoints bound
      ensures exit.Bound() ==> ScanReport(exit, rc, ConfigurationCount(descr), addressed, confReads, trace, scanned)
    {
      held, addressed, confReads, trace, scanned := 0, State(), [], [], State();
      ghost var calls0 := host.calls;
      var devDescr;
      rc, devDescr, exit, held := Address(parent, port, lowspeed);
      descr := devDescr;
      if rc != 0 {
        return;
      }
      ghost var addressing := host.calls;
      assert addressing == calls0 + Addressing(descr, parent, port, held);
      addressed := State();
      assert bAddress == held && addressed == Addressed(old(State()), descr, held);
      rc, exit, confReads, trace, scanned := Configure(devDescr);
    }

  }
}
