/** The shared data model: the desired interface as the state document describes it,
    and the NetworkManager connection profile as a record of optional setting groups. */
module Types {

  /** Rust's `Option`. */
  datatype Option<+T> = None | Some(value: T)

  /** The error kinds the compiler and the revert planner raise or pass on from their
      collaborators. */
  datatype ErrorKind = NotImplementedError | InvalidArgument | PluginFailure | Bug

  /** `NmstateError`; the human-readable message is not modelled, only its kind. */
  datatype NmstateError = NmstateError(kind: ErrorKind)

  /** Rust's `Result<T, NmstateError>`; `:-` plays the part of the `?` operator. */
  datatype Result<+T> = Ok(value: T) | Err(error: NmstateError) {
    predicate IsFailure() { Err? }

    function PropagateFailure<U>(): Result<U>
      requires Err?
    {
      Err(error)
    }

    function Extract(): T
      requires Ok?
    {
      value
    }

    function ToOption(): Option<T> {
      if Ok? then Some(value) else None
    }
  }

  /** A value whose inner structure the compiler and the revert planner never look at: a
      setting group, a family-specific configuration, a route list.  Equal payloads are
      equal values. */
  datatype Opaque = Opaque(bytes: seq<int>)

  const EmptyOpaque := Opaque([])

  /** The closed set of interface families.  Loopback, MacSec, Ipsec, Hsr and Unknown stand
      for the families the type mapper does not (yet) support. */
  datatype InterfaceType =
    | Bond | LinuxBridge | Dummy | Ethernet | Veth | MacVlan | MacVtap
    | OvsBridge | OvsInterface | Vlan | Vxlan | Vrf | InfiniBand
    | Loopback | MacSec | Ipsec | Hsr | Unknown
    | Other(typeName: string)

  datatype InterfaceIpv4 = InterfaceIpv4(ipv4: Opaque)

  datatype InterfaceIpv6 = InterfaceIpv6(ipv6: Opaque)

  datatype LldpConfig = LldpConfig(enabled: bool, neighbors: Opaque)

  /** The attributes every interface family shares. */
  datatype BaseInterface = BaseInterface(
    name: string,
    ifaceType: InterfaceType,
    controller: Option<string>,
    controllerType: Option<InterfaceType>,
    ipv4: Option<InterfaceIpv4>,
    ipv6: Option<InterfaceIpv6>,
    routes: Option<Opaque>,
    rules: Option<Opaque>,
    lldp: Option<LldpConfig>,
    mptcp: Option<Opaque>,
    others: Opaque)

  datatype VethConfig = VethConfig(peer: string)

  /** One port of an OVS bridge; `settings` holds everything apart from the port's name. */
  datatype OvsBridgePortConfig = OvsBridgePortConfig(name: string, settings: Opaque)

  /** The desired interface: one variant per family, each with its base attributes
      and its family-specific configuration. */
  datatype Interface =
    | EthernetIface(base: BaseInterface, veth: Option<VethConfig>, conf: Opaque)
    | OvsBridgeIface(base: BaseInterface, ports: seq<OvsBridgePortConfig>, conf: Opaque)
    | LinuxBridgeIface(base: BaseInterface, conf: Opaque)
    | BondIface(base: BaseInterface, conf: Opaque)
    | OvsInterfaceIface(base: BaseInterface, conf: Opaque)
    | VlanIface(base: BaseInterface, vlan: Option<Opaque>)
    | VxlanIface(base: BaseInterface, vxlan: Option<Opaque>)
    | MacVlanIface(base: BaseInterface, macVlan: Option<Opaque>)
    | MacVtapIface(base: BaseInterface, macVtap: Option<Opaque>)
    | VrfIface(base: BaseInterface, vrf: Option<Opaque>)
    | InfiniBandIface(base: BaseInterface, conf: Opaque)
    | OtherIface(base: BaseInterface, conf: Opaque)
  {
    function Name(): string { base.name }

    function IfaceType(): InterfaceType { base.ifaceType }

    predicate HasVeth() { EthernetIface? && veth.Some? }
  }

  datatype NmSettingsConnectionFlag = Unsaved | NmGenerated | Volatile | External

  /** The identity sub-record (`connection` setting) of a profile. */
  datatype NmSettingConnection = NmSettingConnection(
    id: Option<string>,
    uuid: Option<string>,
    ifaceType: Option<string>,
    ifaceName: Option<string>,
    autoconnect: Option<bool>,
    autoconnectPorts: Option<bool>,
    controller: Option<string>,
    controllerType: Option<string>,
    lldp: Option<bool>,
    mptcpFlags: Option<Opaque>)

  const DefaultNmSettingConnection :=
    NmSettingConnection(None, None, None, None, None, None, None, None, None, None)

  /** A connection profile: its identity sub-record, its runtime flags and its
      setting groups, each absent or holding an opaque payload. */
  datatype NmConnection = NmConnection(
    connection: Option<NmSettingConnection>,
    flags: seq<NmSettingsConnectionFlag>,
    ipv4: Option<Opaque>,
    ipv6: Option<Opaque>,
    wired: Option<Opaque>,
    ovsExtIds: Option<Opaque>,
    ieee8021x: Option<Opaque>,
    user: Option<Opaque>,
    ethtool: Option<Opaque>,
    ovsBridge: Option<Opaque>,
    bridge: Option<Opaque>,
    bond: Option<Opaque>,
    ovsIface: Option<Opaque>,
    vlan: Option<Opaque>,
    vxlan: Option<Opaque>,
    veth: Option<Opaque>,
    sriov: Option<Opaque>,
    macVlan: Option<Opaque>,
    vrf: Option<Opaque>,
    infiniband: Option<Opaque>,
    bridgePort: Option<Opaque>)
  {
    function IfaceName(): Option<string> {
      if connection.Some? then connection.value.ifaceName else None
    }

    function IfaceType(): Option<string> {
      if connection.Some? then connection.value.ifaceType else None
    }

    function Uuid(): Option<string> {
      if connection.Some? then connection.value.uuid else None
    }

    function ControllerType(): Option<string> {
      if connection.Some? then connection.value.controllerType else None
    }
  }

  const DefaultNmConnection := NmConnection(
    None, [], None, None, None, None, None, None, None, None, None,
    None, None, None, None, None, None, None, None, None, None)
}
