/**
 * The USB host controller as the class driver sees it: the address pool's
 * per-address device records, the enumeration requests (device descriptor,
 * set address, endpoint-table binding, configuration descriptor, set
 * configuration), the pipe allocator and the bulk transfer primitives.
 *
 * The controller is foreign code. Each request below returns an arbitrary
 * result and records itself, together with that result, in `calls`, so that
 * the driver's contracts can say which requests it made, in which order,
 * and what it did with the answers.
 */
module UsbHost {

  newtype byte = x: int | 0 <= x < 0x100

  /** The fields of a device descriptor (USB 2.0, section 9.6.1) that the driver reads. */
  datatype DeviceDescriptor = DeviceDescriptor(bMaxPacketSize0: bv8, bNumConfigurations: bv8)

  /** The fields of an endpoint descriptor (USB 2.0, section 9.6.6) that the driver reads. */
  datatype EndpointDescriptor = EndpointDescriptor(bEndpointAddress: bv8, bmAttributes: bv8, wMaxPacketSize: bv16)

  /** One call of the class driver's endpoint callback by the configuration-descriptor parser. */
  datatype EndpointReport = EndpointReport(conf: nat, iface: nat, alt: nat, proto: nat, ep: EndpointDescriptor)

  /** NAK retry power kept in the upper bits of an endpoint's attribute byte. */
  datatype NakPower = NakMaxPower | NakNoWait

  /** One entry of an endpoint table (the library's `EpInfo` record). */
  datatype EpInfo = EpInfo(
    deviceEpNum: nat,   // endpoint number on the device
    hostPipeNum: nat,   // host pipe bound to it, 0 = none
    maxPktSize: nat,
    sndToggle: bool,
    rcvToggle: bool,
    nakPower: NakPower)

  /** The address pool's record of one device: its endpoint table and speed. */
  datatype DevRecord = DevRecord(epinfo: array?<EpInfo>, lowspeed: bool)

  datatype PipeToken = TokenIn | TokenOut

  /** A request the driver made of the controller, with the controller's answer. */
  datatype HostCall =
    | DevDescrRead(rc: nat, descr: DeviceDescriptor)
    | AddressAllocated(parent: nat, port: nat, addr: nat)
    | AddressFreed(addr: nat)
    | AddressSet(addr: nat, rc: nat)
    | EpInfoBound(addr: nat, count: nat, rc: nat)
    | ConfDescrRead(addr: nat, conf: nat, rc: nat, reports: seq<EndpointReport>)
    | ConfigurationSet(addr: nat, conf: nat, rc: nat)
    | PipeAllocated(addr: nat, epNum: nat, token: PipeToken, maxPktSize: nat, pipe: nat)
    | PipeFreed(pipe: nat)
    | OutTransfer(addr: nat, epNum: nat, data: seq<byte>, rc: nat)
    | InTransfer(addr: nat, epNum: nat, capacity: nat, rc: nat, data: seq<byte>)


  class Host {
    var records: map<nat, DevRecord>
    var calls: seq<HostCall>

    constructor (records: map<nat, DevRecord>)
      ensures this.records == records && calls == []
    {
      this.records := records;
      calls := [];
    }

    /** Reads the device descriptor of the device at address 0 through its endpoint 0. */
    method GetDevDescr() returns (rc: nat, descr: DeviceDescriptor)
      modifies this`calls
      ensures calls == old(calls) + [DevDescrRead(rc, descr)]
    {
      rc, descr := *, *;
      calls := calls + [DevDescrRead(rc, descr)];
    }

    /** Takes a fresh bus address from the pool (0 when the pool has none left). */
    method AllocAddress(parent: nat, port: nat) returns (addr: nat)
      modifies this`calls
      ensures calls == old(calls) + [AddressAllocated(parent, port, addr)]
    {
      addr := *;
      calls := calls + [AddressAllocated(parent, port, addr)];
    }

    method FreeAddress(addr: nat)
      modifies this`calls
      ensures calls == old(calls) + [AddressFreed(addr)]
    {
      calls := calls + [AddressFreed(addr)];
    }

    /** SET_ADDRESS request to the device at address 0. */
    method SetAddr(addr: nat) returns (rc: nat)
      modifies this`calls
      ensures calls == old(calls) + [AddressSet(addr, rc)]
    {
      rc := *;
      calls := calls + [AddressSet(addr, rc)];
    }

    /** Binds the first `count` entries of `table` as the endpoint table of `addr`. */
    method SetEpInfoEntry(addr: nat, count: nat, table: array<EpInfo>) returns (rc: nat)
      modifies this`calls
      ensures calls == old(calls) + [EpInfoBound(addr, count, rc)]
    {
      rc := *;
      calls := calls + [EpInfoBound(addr, count, rc)];
    }

    /**
     * Reads configuration `conf` of the device at `addr` and runs its parser
     * over it; `reports` are the endpoints the parser hands to the class
     * driver's callback, in order (the parser itself is not modelled).
     */
    method GetConfDescr(addr: nat, conf: nat) returns (rc: nat, reports: seq<EndpointReport>)
      modifies this`calls
      ensures calls == old(calls) + [ConfDescrRead(addr, conf, rc, reports)]
    {
      rc, reports := *, *;
      calls := calls + [ConfDescrRead(addr, conf, rc, reports)];
    }

    /** SET_CONFIGURATION request. */
    method SetConf(addr: nat, conf: nat) returns (rc: nat)
      modifies this`calls
      ensures calls == old(calls) + [ConfigurationSet(addr, conf, rc)]
    {
      rc := *;
      calls := calls + [ConfigurationSet(addr, conf, rc)];
    }

    /** Allocates a single-bank bulk pipe; 0 means the allocation failed. */
    method PipeAlloc(addr: nat, epNum: nat, token: PipeToken, maxPktSize: nat) returns (pipe: nat)
      modifies this`calls
      ensures calls == old(calls) + [PipeAllocated(addr, epNum, token, maxPktSize, pipe)]
    {
      pipe := *;
      calls := calls + [PipeAllocated(addr, epNum, token, maxPktSize, pipe)];
    }

    method PipeFree(pipe: nat)
      modifies this`calls
      ensures calls == old(calls) + [PipeFreed(pipe)]
    {
      calls := calls + [PipeFreed(pipe)];
    }

    /** Bulk OUT transfer of `data` to endpoint `epNum` of the device at `addr`. */
    method OutTransfer(addr: nat, epNum: nat, data: seq<byte>) returns (rc: nat)
      modifies this`calls
      ensures calls == old(calls) + [HostCall.OutTransfer(addr, epNum, data, rc)]
    {
      rc := *;
      calls := calls + [HostCall.OutTransfer(addr, epNum, data, rc)];
    }

    /** Bulk IN transfer of at most `capacity` bytes. */
    method InTransfer(addr: nat, epNum: nat, capacity: nat) returns (rc: nat, data: seq<byte>)
      modifies this`calls
      ensures |data| <= capacity
      ensures calls == old(calls) + [HostCall.InTransfer(addr, epNum, capacity, rc, data)]
    {
      rc, data := *, *;
      if |data| > capacity {
        data := data[..capacity];
      }
      calls := calls + [HostCall.InTransfer(addr, epNum, capacity, rc, data)];
    }
  }
}
