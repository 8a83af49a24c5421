/** The type mapper: from an interface family to NetworkManager's on-wire type string. */
module TypeMapper {
  import opened Types

  const BridgeSettingName := "bridge"
  const WiredSettingName := "802-3-ethernet"
  const OvsBridgeSettingName := "ovs-bridge"
  const OvsPortSettingName := "ovs-port"
  const OvsIfaceSettingName := "ovs-interface"
  const VethSettingName := "veth"
  const BondSettingName := "bond"
  const DummySettingName := "dummy"
  const MacVlanSettingName := "macvlan"
  const VrfSettingName := "vrf"
  const VlanSettingName := "vlan"
  const VxlanSettingName := "vxlan"
  const InfiniBandSettingName := "infiniband"

  /** The families the mapper has no on-wire type for. */
  const UnsupportedTypes: set<InterfaceType> := {Loopback, MacSec, Ipsec, Hsr, Unknown}

  /** The on-wire types of the built-in families, in one place. */
  const BuiltinSettingNames: set<string> := {
    BridgeSettingName, WiredSettingName, OvsBridgeSettingName, OvsIfaceSettingName,
    VethSettingName, BondSettingName, DummySettingName, MacVlanSettingName,
    VrfSettingName, VlanSettingName, VxlanSettingName, InfiniBandSettingName }

  function IfaceTypeToNm(t: InterfaceType): (r: Result<string>)
    ensures r.Err? <==> t in UnsupportedTypes
    ensures r.Err? ==> r.error.kind == NotImplementedError
    ensures t.Other? ==> r == Ok(t.typeName)
    ensures r.Ok? && !t.Other? ==> r.value in BuiltinSettingNames
    ensures t == LinuxBridge ==> r == Ok(BridgeSettingName)
    ensures t == Ethernet ==> r == Ok(WiredSettingName)
    ensures t == MacVlan || t == MacVtap ==> r == Ok(MacVlanSettingName)
  {
    match t
    case LinuxBridge => Ok(BridgeSettingName)
    case Bond => Ok(BondSettingName)
    case Ethernet => Ok(WiredSettingName)
    case OvsBridge => Ok(OvsBridgeSettingName)
    case OvsInterface => Ok(OvsIfaceSettingName)
    case Vlan => Ok(VlanSettingName)
    case Vxlan => Ok(VxlanSettingName)
    case Dummy => Ok(DummySettingName)
    case MacVlan => Ok(MacVlanSettingName)
    case MacVtap => Ok(MacVlanSettingName)
    case Vrf => Ok(VrfSettingName)
    case Veth => Ok(VethSettingName)
    case InfiniBand => Ok(InfiniBandSettingName)
    case Other(s) => Ok(s)
    case _ => Err(NmstateError(NotImplementedError))
  }

  /** The rest of the fixed table, one entry per built-in family. */
  lemma BuiltinTable(t: InterfaceType)
    ensures t == Bond ==> IfaceTypeToNm(t) == Ok(BondSettingName)
    ensures t == OvsBridge ==> IfaceTypeToNm(t) == Ok(OvsBridgeSettingName)
    ensures t == OvsInterface ==> IfaceTypeToNm(t) == Ok(OvsIfaceSettingName)
    ensures t == Vlan ==> IfaceTypeToNm(t) == Ok(VlanSettingName)
    ensures t == Vxlan ==> IfaceTypeToNm(t) == Ok(VxlanSettingName)
    ensures t == Dummy ==> IfaceTypeToNm(t) == Ok(DummySettingName)
    ensures t == Vrf ==> IfaceTypeToNm(t) == Ok(VrfSettingName)
    ensures t == Veth ==> IfaceTypeToNm(t) == Ok(VethSettingName)
    ensures t == InfiniBand ==> IfaceTypeToNm(t) == Ok(InfiniBandSettingName)
  {
  }

  /** Among the built-in families the on-wire type identifies the family, except that
      MacVlan and MacVtap share "macvlan". */
  lemma NmTypeDeterminesFamily(a: InterfaceType, b: InterfaceType)
    requires !a.Other? && !b.Other?
    requires IfaceTypeToNm(a).Ok? && IfaceTypeToNm(a) == IfaceTypeToNm(b)
    ensures a == b || {a, b} == {MacVlan, MacVtap}
  {
  }

  /** Only Ethernet (or a verbatim `Other("802-3-ethernet")`) maps to the wired type; in
      particular requesting Veth never yields the wired type. */
  lemma OnlyEthernetIsWired(t: InterfaceType)
    requires IfaceTypeToNm(t) == Ok(WiredSettingName)
    ensures t == Ethernet || t == Other(WiredSettingName)
  {
  }
}
