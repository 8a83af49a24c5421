/** The connection compiler: one desired interface to its ordered list of profiles, the
    primary profile first and the companion profiles after it.  Line numbers in this
    module refer to rust/src/lib/nm/settings/connection.rs. */
module Compiler {
  import opened Types
  import opened TypeMapper
  import opened Leaves
  import opened ProfileMatcher
  import opened IdentityAssigner

  /** What one compilation produces: the profiles, or, on the two promotion paths, the
      substitute interface the source compiles instead by calling itself again. */
  datatype Compiled = Profiles(conns: seq<NmConnection>) | Recompile(substitute: Interface)

  /** The existing profile an index of the matcher designates. */
  function ExistConn(exist: seq<NmConnection>, idx: Option<nat>): Option<NmConnection>
    requires idx.Some? ==> idx.value < |exist|
  {
    if idx.Some? then Some(exist[idx.value]) else None
  }

  /** The live interface with its veth configuration dropped and, for ethernet, its type
      reset to plain ethernet (lines 77-81). */
  function WithoutVeth(cur: Interface): (r: Interface)
    ensures !r.HasVeth() && r.Name() == cur.Name()
    ensures cur.EthernetIface? ==>
      r.EthernetIface? && r.IfaceType() == Ethernet && r.base == cur.base.(ifaceType := Ethernet) && r.conf == cur.conf
    ensures !cur.EthernetIface? ==> r == cur
  {
    if cur.EthernetIface? then cur.(veth := None, base := cur.base.(ifaceType := Ethernet)) else cur
  }

  /** Lines 65-111: the promotion paths.  `None` means the normal path is taken. */
  function Promotion(iface: Interface, exist: seq<NmConnection>, existIdx: Option<nat>, env: Collaborators)
    : (r: Option<Compiled>)
    requires existIdx.Some? ==> existIdx.value < |exist|
    ensures r.Some? && r.value.Profiles? ==> existIdx.Some? && r.value.conns == [exist[existIdx.value]]
    ensures r.Some? ==> env.isUpExistConfig(iface)
  {
    if !env.isUpExistConfig(iface) then None
    else if existIdx.Some? then
      var nmConn := exist[existIdx.value];
      var cur := env.kernelIfaceWithRoute(iface.Name());
      if !env.isUserspace(iface) && External in nmConn.flags && cur.Some? then
        Some(Recompile(WithoutVeth(cur.value)))
      else
        Some(Profiles([nmConn]))
    else if !env.isUserspace(iface) then
      var cur := env.kernelIfaceWithRoute(iface.Name());
      if cur.Some? && env.isIgnore(cur.value) then Some(Recompile(cur.value)) else None
    else None
  }

  /** Lines 122-134: the profile once the IP pair is stored and the infallible generators
      have run, each on the profile its predecessors left. */
  function BeforeEthtool(iface: Interface, nmConn: NmConnection, ip: (Option<Opaque>, Option<Opaque>), env: Collaborators)
    : NmConnection
  {
    var c1 := nmConn.(ipv4 := ip.0, ipv6 := ip.1);
    var c2 := if iface.IfaceType() != InfiniBand then c1.(wired := env.wired(iface, c1)) else c1;
    var c3 := c2.(ovsExtIds := env.ovsExtIds(iface, c2));
    var c4 := c3.(ieee8021x := env.ieee8021x(iface, c3));
    c4.(user := env.user(iface, c4))
  }

  /** Lines 122-135: IP, wired, OVS external ids, 802.1x, user data and ethtool groups. */
  function CommonSettings(iface: Interface, nmConn: NmConnection, env: Collaborators)
    : (r: Result<NmConnection>)
    // Only the IP and ethtool generators can fail.
    ensures r.Err? <==>
      || env.ip(iface, nmConn).Err?
      || env.ethtool(iface, BeforeEthtool(iface, nmConn, env.ip(iface, nmConn).value, env)).Err?
    // Only these seven groups are written.
    ensures r.Ok? ==>
      r.value == nmConn.(
        ipv4 := r.value.ipv4, ipv6 := r.value.ipv6, wired := r.value.wired, ovsExtIds := r.value.ovsExtIds,
        ieee8021x := r.value.ieee8021x, user := r.value.user, ethtool := r.value.ethtool)
    ensures r.Ok? ==> r.value.connection == nmConn.connection && r.value.flags == nmConn.flags
    ensures r.Ok? ==> r.value.bridgePort == nmConn.bridgePort && r.value.ovsIface == nmConn.ovsIface
    // The IP pair lands in ipv4/ipv6; wired is generated except for InfiniBand.
    ensures r.Ok? ==> env.ip(iface, nmConn) == Ok((r.value.ipv4, r.value.ipv6))
    ensures r.Ok? && iface.IfaceType() == InfiniBand ==> r.value.wired == nmConn.wired
    ensures r.Ok? && iface.IfaceType() != InfiniBand ==>
      r.value.wired == env.wired(iface, nmConn.(ipv4 := r.value.ipv4, ipv6 := r.value.ipv6))
  {
    var ip :- env.ip(iface, nmConn);
    var c5 := BeforeEthtool(iface, nmConn, ip, env);
    var ethtool :- env.ethtool(iface, c5);
    Ok(c5.(ethtool := ethtool))
  }

  /** The generators run in the source's order: each one sees the profile with the groups
      of its predecessors already written. */
  lemma CommonSettingsOrder(iface: Interface, nmConn: NmConnection, env: Collaborators)
    requires CommonSettings(iface, nmConn, env).Ok?
    ensures var r := CommonSettings(iface, nmConn, env).value;
      var c2 := nmConn.(ipv4 := r.ipv4, ipv6 := r.ipv6, wired := r.wired);
      var c3 := c2.(ovsExtIds := r.ovsExtIds);
      var c4 := c3.(ieee8021x := r.ieee8021x);
      var c5 := c4.(user := r.user);
      && r.ovsExtIds == env.ovsExtIds(iface, c2)
      && r.ieee8021x == env.ieee8021x(iface, c3)
      && r.user == env.user(iface, c4)
      && env.ethtool(iface, c5) == Ok(r.ethtool)
  {
  }

  /** The OVS port profile of one bridge port, matched against the existing profiles by the
      port's own name and the "ovs-port" type. */
  function OvsPortProfile(
    brName: string, port: OvsBridgePortConfig, exist: seq<NmConnection>, active: seq<string>,
    stable: bool, env: Collaborators): Result<NmConnection>
  {
    env.ovsPortConn(
      brName, port, ExistConn(exist, ExistProfile(exist, port.name, Other(OvsPortSettingName), active)), stable)
  }

  /** Lines 141-154: one OVS port profile per port, in port order; the first failure
      stops the list. */
  function OvsPortProfiles(
    brName: string, ports: seq<OvsBridgePortConfig>, exist: seq<NmConnection>, active: seq<string>,
    stable: bool, env: Collaborators): (r: Result<seq<NmConnection>>)
    ensures r.Ok? ==> forall i :: 0 <= i < |ports| ==> OvsPortProfile(brName, ports[i], exist, active, stable, env).Ok?
    ensures r.Err? ==> exists i :: 0 <= i < |ports| && OvsPortProfile(brName, ports[i], exist, active, stable, env).Err?
    ensures r.Ok? ==> |r.value| == |ports|
    ensures r.Ok? ==> forall i :: 0 <= i < |ports| ==>
      r.value[i] == OvsPortProfile(brName, ports[i], exist, active, stable, env).value
    decreases |ports|
  {
    if ports == [] then Ok([])
    else
      var init := ports[..|ports| - 1];
      var prev :- OvsPortProfiles(brName, init, exist, active, stable, env);
      var conn :- OvsPortProfile(brName, ports[|ports| - 1], exist, active, stable, env);
      Ok(prev + [conn])
  }

  /** The companions the family dispatch adds: the OVS ports of a bridge, or the veth peer
      of an ethernet interface whose peer is not in the desired state. */
  function FamilyCompanionCount(iface: Interface, vethPeerExistInDesire: bool): nat {
    if iface.OvsBridgeIface? then |iface.ports|
    else if iface.HasVeth() && !vethPeerExistInDesire then 1
    else 0
  }

  /** Lines 178-187: the veth peer's profile, unless the peer is itself in the desired state. */
  function VethPeer(
    veth: VethConfig, name: string, exist: seq<NmConnection>, stable: bool, vethPeerExistInDesire: bool,
    env: Collaborators): (r: Result<seq<NmConnection>>)
    ensures r.Ok? ==> |r.value| == if vethPeerExistInDesire then 0 else 1
  {
    if vethPeerExistInDesire then Ok([])
    else
      var peer :- env.vethPeerConn(veth.peer, name, exist, stable);
      Ok([peer])
  }

  /** Lines 137-210, the setting groups: each family fills its own group and no other.
      The `From`-converted groups are written only when the family is configured; an
      ethernet interface also gets its veth group before sriov is generated. */
  function FamilyGroups(iface: Interface, nmConn: NmConnection, env: Collaborators): (r: NmConnection)
    ensures iface.OvsBridgeIface? ==> r == nmConn.(ovsBridge := env.ovsBridge(iface, nmConn))
    ensures iface.LinuxBridgeIface? ==> r == nmConn.(bridge := env.bridge(iface, nmConn))
    ensures iface.BondIface? ==> r == nmConn.(bond := env.bond(iface, nmConn))
    ensures iface.OvsInterfaceIface? ==> r == nmConn.(ovsIface := env.ovsIface(iface, nmConn))
    ensures iface.InfiniBandIface? ==> r == nmConn.(infiniband := env.infiniband(iface, nmConn))
    ensures iface.VlanIface? ==>
      r == nmConn.(vlan := if iface.vlan.Some? then Some(env.vlanFrom(iface.vlan.value)) else nmConn.vlan)
    ensures iface.VxlanIface? ==>
      r == nmConn.(vxlan := if iface.vxlan.Some? then Some(env.vxlanFrom(iface.vxlan.value)) else nmConn.vxlan)
    ensures iface.MacVlanIface? ==>
      r == nmConn.(macVlan := if iface.macVlan.Some? then Some(env.macVlanFrom(iface.macVlan.value)) else nmConn.macVlan)
    ensures iface.MacVtapIface? ==>
      r == nmConn.(macVlan := if iface.macVtap.Some? then Some(env.macVtapFrom(iface.macVtap.value)) else nmConn.macVlan)
    ensures iface.VrfIface? ==>
      r == nmConn.(vrf := if iface.vrf.Some? then Some(env.vrfFrom(iface.vrf.value)) else nmConn.vrf)
    ensures iface.EthernetIface? ==>
      var withVeth := nmConn.(veth := if iface.veth.Some? then Some(env.vethFrom(iface.veth.value)) else nmConn.veth);
      r == withVeth.(sriov := env.sriov(iface, withVeth))
    ensures iface.OtherIface? ==> r == nmConn
  {
    match iface
    case OvsBridgeIface(_, _, _) => nmConn.(ovsBridge := env.ovsBridge(iface, nmConn))
    case LinuxBridgeIface(_, _) => nmConn.(bridge := env.bridge(iface, nmConn))
    case BondIface(_, _) => nmConn.(bond := env.bond(iface, nmConn))
    case OvsInterfaceIface(_, _) => nmConn.(ovsIface := env.ovsIface(iface, nmConn))
    case VlanIface(_, conf) => if conf.Some? then nmConn.(vlan := Some(env.vlanFrom(conf.value))) else nmConn
    case VxlanIface(_, conf) => if conf.Some? then nmConn.(vxlan := Some(env.vxlanFrom(conf.value))) else nmConn
    case EthernetIface(_, veth, _) =>
      var conn := if veth.Some? then nmConn.(veth := Some(env.vethFrom(veth.value))) else nmConn;
      conn.(sriov := env.sriov(iface, conn))
    case MacVlanIface(_, conf) => if conf.Some? then nmConn.(macVlan := Some(env.macVlanFrom(conf.value))) else nmConn
    case MacVtapIface(_, conf) => if conf.Some? then nmConn.(macVlan := Some(env.macVtapFrom(conf.value))) else nmConn
    case VrfIface(_, conf) => if conf.Some? then nmConn.(vrf := Some(env.vrfFrom(conf.value))) else nmConn
    case InfiniBandIface(_, _) => nmConn.(infiniband := env.infiniband(iface, nmConn))
    case OtherIface(_, _) => nmConn
  }

  /** Lines 141-154 and 178-187, the companions: the OVS ports of a bridge, or the veth
      peer of an ethernet interface whose peer is not in the desired state. */
  function FamilyCompanionProfiles(
    iface: Interface, exist: seq<NmConnection>, active: seq<string>,
    stable: bool, vethPeerExistInDesire: bool, env: Collaborators)
    : (r: Result<seq<NmConnection>>)
    ensures r.Err? <==>
      || (iface.OvsBridgeIface? && OvsPortProfiles(iface.Name(), iface.ports, exist, active, stable, env).Err?)
      || (iface.HasVeth() && !vethPeerExistInDesire
          && env.vethPeerConn(iface.veth.value.peer, iface.Name(), exist, stable).Err?)
    ensures r.Ok? ==> |r.value| == FamilyCompanionCount(iface, vethPeerExistInDesire)
    ensures iface.OvsBridgeIface? ==> r == OvsPortProfiles(iface.Name(), iface.ports, exist, active, stable, env)
    ensures r.Ok? && iface.HasVeth() && !vethPeerExistInDesire ==>
      env.vethPeerConn(iface.veth.value.peer, iface.Name(), exist, stable) == Ok(r.value[0])
  {
    if iface.OvsBridgeIface? then OvsPortProfiles(iface.Name(), iface.ports, exist, active, stable, env)
    else if iface.HasVeth() then VethPeer(iface.veth.value, iface.Name(), exist, stable, vethPeerExistInDesire, env)
    else Ok([])
  }

  /** Lines 137-210: the family-specific setting group and the family's companions. */
  function FamilySettings(
    iface: Interface, nmConn: NmConnection, exist: seq<NmConnection>, active: seq<string>,
    stable: bool, vethPeerExistInDesire: bool, env: Collaborators)
    : (r: Result<(NmConnection, seq<NmConnection>)>)
    ensures r.Err? <==> FamilyCompanionProfiles(iface, exist, active, stable, vethPeerExistInDesire, env).Err?
    ensures r.Ok? ==> r.value.0 == FamilyGroups(iface, nmConn, env)
    ensures r.Ok? ==> r.value.0.connection == nmConn.connection && r.value.0.flags == nmConn.flags
    ensures r.Ok? ==> |r.value.1| == FamilyCompanionCount(iface, vethPeerExistInDesire)
    ensures r.Ok? && iface.HasVeth() ==> r.value.0.veth == Some(env.vethFrom(iface.veth.value))
  {
    var companions :- FamilyCompanionProfiles(iface, exist, active, stable, vethPeerExistInDesire, env);
    Ok((FamilyGroups(iface, nmConn, env), companions))
  }

  /** Lines 212-218: the bridge-port group dropped unless the stored controller type is
      "bridge", the OVS interface group dropped unless it is "ovs-port". */
  function UnlinkedGroups(nmConn: NmConnection): NmConnection {
    var c1 := if nmConn.ControllerType() != Some(BridgeSettingName) then nmConn.(bridgePort := None) else nmConn;
    if c1.ControllerType() != Some(OvsPortSettingName) then c1.(ovsIface := None) else c1
  }

  /** Lines 212-228: a bridge-port group survives only under a bridge controller (or is
      regenerated from a Linux bridge controller interface), an OVS interface group only
      under an OVS port controller and never on detach. */
  function CascadeCleanup(nmConn: NmConnection, iface: Interface, ctrlIface: Option<Interface>, env: Collaborators)
    : (r: NmConnection)
    ensures r == nmConn.(bridgePort := r.bridgePort, ovsIface := r.ovsIface)
    // A Linux bridge controller interface rebuilds the bridge-port group, overriding
    // whatever the family dispatch left.
    ensures ctrlIface.Some? && ctrlIface.value.LinuxBridgeIface? ==>
      r.bridgePort == env.bridgePort(ctrlIface.value, UnlinkedGroups(nmConn))
    // Otherwise the group is kept under a "bridge" controller type and dropped elsewhere.
    ensures !(ctrlIface.Some? && ctrlIface.value.LinuxBridgeIface?) ==>
      r.bridgePort == if nmConn.ControllerType() == Some(BridgeSettingName) then nmConn.bridgePort else None
    ensures r.bridgePort.Some? ==>
      nmConn.ControllerType() == Some(BridgeSettingName)
      || (ctrlIface.Some? && ctrlIface.value.LinuxBridgeIface?)
    // The OVS interface group is kept exactly under an "ovs-port" controller type when not
    // detaching.
    ensures r.ovsIface ==
      if nmConn.ControllerType() == Some(OvsPortSettingName) && iface.base.controller != Some("")
      then nmConn.ovsIface else None
    ensures r.ovsIface.Some? ==>
      nmConn.ControllerType() == Some(OvsPortSettingName) && iface.base.controller != Some("")
  {
    var c2 := UnlinkedGroups(nmConn);
    var c3 :=
      if ctrlIface.Some? && ctrlIface.value.LinuxBridgeIface?
      then c2.(bridgePort := env.bridgePort(ctrlIface.value, c2))
      else c2;
    if iface.base.controller == Some("") then c3.(ovsIface := None) else c3
  }

  /** Lines 233-248: attaching to an OVS bridge that is not part of this compilation needs
      an OVS port profile for the pair (controller, interface). */
  predicate NeedsImplicitOvsPort(iface: Interface, ctrlIface: Option<Interface>) {
    iface.base.controllerType == Some(OvsBridge) && ctrlIface.None? && iface.base.controller.Some?
  }

  function ImplicitOvsPort(iface: Interface, ctrlIface: Option<Interface>, stable: bool, env: Collaborators)
    : (r: Result<seq<NmConnection>>)
    ensures r.Err? <==>
      NeedsImplicitOvsPort(iface, ctrlIface)
      && env.ovsPortConn(iface.base.controller.value, OvsBridgePortConfig(iface.Name(), EmptyOpaque), None, stable).Err?
    ensures r.Ok? ==> |r.value| == if NeedsImplicitOvsPort(iface, ctrlIface) then 1 else 0
    ensures r.Ok? && NeedsImplicitOvsPort(iface, ctrlIface) ==>
      env.ovsPortConn(iface.base.controller.value, OvsBridgePortConfig(iface.Name(), EmptyOpaque), None, stable)
        == Ok(r.value[0])
  {
    if NeedsImplicitOvsPort(iface, ctrlIface) then
      var conn :- env.ovsPortConn(
        iface.base.controller.value, OvsBridgePortConfig(iface.Name(), EmptyOpaque), None, stable);
      Ok([conn])
    else Ok([])
  }

  /** The profile the normal path starts from: the matched one, or an empty one, with its
      runtime flags cleared. */
  function StartingProfile(exist: seq<NmConnection>, existIdx: Option<nat>): NmConnection
    requires existIdx.Some? ==> existIdx.value < |exist|
  {
    (if existIdx.Some? then exist[existIdx.value] else DefaultNmConnection).(flags := [])
  }

  /** Lines 112-252: the normal path. */
  function NormalPath(
    iface: Interface, ctrlIface: Option<Interface>, exist: seq<NmConnection>, active: seq<string>,
    vethPeerExistInDesire: bool, env: Collaborators, randomUuid: string, existIdx: Option<nat>)
    : (r: Result<seq<NmConnection>>)
    requires existIdx.Some? ==> existIdx.value < |exist|
    ensures r.Err? <==>
      || ConnSetting(iface, StartingProfile(exist, existIdx), |exist| == 0, env, randomUuid).Err?
      || CommonSettings(iface, ConnSetting(iface, StartingProfile(exist, existIdx), |exist| == 0, env, randomUuid).value, env).Err?
      || FamilyCompanionProfiles(iface, exist, active, |exist| == 0, vethPeerExistInDesire, env).Err?
      || ImplicitOvsPort(iface, ctrlIface, |exist| == 0, env).Err?
    ensures r.Ok? ==> |r.value| >= 1 && r.value[0].flags == [] && r.value[0].connection.Some?
  {
    var stable := |exist| == 0;
    var withSetting :- ConnSetting(iface, StartingProfile(exist, existIdx), stable, env, randomUuid);
    SettingsAndCompanions(iface, ctrlIface, withSetting, exist, active, stable, vethPeerExistInDesire, env)
  }

  /** Lines 122-252: everything after the identity sub-record. */
  function SettingsAndCompanions(
    iface: Interface, ctrlIface: Option<Interface>, withSetting: NmConnection, exist: seq<NmConnection>,
    active: seq<string>, stable: bool, vethPeerExistInDesire: bool, env: Collaborators)
    : (r: Result<seq<NmConnection>>)
    ensures r.Err? <==>
      || CommonSettings(iface, withSetting, env).Err?
      || FamilyCompanionProfiles(iface, exist, active, stable, vethPeerExistInDesire, env).Err?
      || ImplicitOvsPort(iface, ctrlIface, stable, env).Err?
    ensures r.Ok? ==>
      |r.value| == 1 + FamilyCompanionCount(iface, vethPeerExistInDesire) + (if NeedsImplicitOvsPort(iface, ctrlIface) then 1 else 0)
    ensures r.Ok? ==> r.value[0].connection == withSetting.connection && r.value[0].flags == withSetting.flags
  {
    var common :- CommonSettings(iface, withSetting, env);
    AfterCommon(iface, ctrlIface, common, exist, active, stable, vethPeerExistInDesire, env)
  }

  /** Lines 137-252: the family dispatch, the cleanup, the implicit OVS port and the
      assembly. */
  function AfterCommon(
    iface: Interface, ctrlIface: Option<Interface>, common: NmConnection, exist: seq<NmConnection>,
    active: seq<string>, stable: bool, vethPeerExistInDesire: bool, env: Collaborators)
    : (r: Result<seq<NmConnection>>)
    ensures r.Err? <==>
      FamilyCompanionProfiles(iface, exist, active, stable, vethPeerExistInDesire, env).Err?
      || ImplicitOvsPort(iface, ctrlIface, stable, env).Err?
    ensures r.Ok? ==>
      |r.value| == 1 + FamilyCompanionCount(iface, vethPeerExistInDesire) + (if NeedsImplicitOvsPort(iface, ctrlIface) then 1 else 0)
    ensures r.Ok? ==> r.value[0].connection == common.connection && r.value[0].flags == common.flags
  {
    var family :- FamilySettings(iface, common, exist, active, stable, vethPeerExistInDesire, env);
    Assembled(iface, ctrlIface, family, stable, env)
  }

  /** Lines 212-252: the cleanup, the implicit OVS port and the primary profile in front. */
  function Assembled(
    iface: Interface, ctrlIface: Option<Interface>, family: (NmConnection, seq<NmConnection>), stable: bool,
    env: Collaborators)
    : (r: Result<seq<NmConnection>>)
    ensures r.Err? <==> ImplicitOvsPort(iface, ctrlIface, stable, env).Err?
    ensures r.Ok? ==> |r.value| == 1 + |family.1| + (if NeedsImplicitOvsPort(iface, ctrlIface) then 1 else 0)
    ensures r.Ok? ==> r.value[0] == CascadeCleanup(family.0, iface, ctrlIface, env)
    ensures r.Ok? ==> r.value[1..1 + |family.1|] == family.1
  {
    var implicit :- ImplicitOvsPort(iface, ctrlIface, stable, env);
    Ok([CascadeCleanup(family.0, iface, ctrlIface, env)] + family.1 + implicit)
  }

  /** `iface_to_nm_connections`, as a function of its inputs and the random draw. */
  function CompileSpec(
    iface: Interface, ctrlIface: Option<Interface>, exist: seq<NmConnection>, active: seq<string>,
    vethPeerExistInDesire: bool, env: Collaborators, randomUuid: string): (r: Result<Compiled>)
    ensures r.Ok? && r.value.Profiles? ==> |r.value.conns| >= 1
    ensures r.Ok? && r.value.Recompile? ==> env.isUpExistConfig(iface) && !env.isUserspace(iface)
    ensures !env.isUpExistConfig(iface) && r.Ok? ==> r.value.Profiles?
    ensures var existIdx := ExistProfile(exist, iface.Name(), iface.IfaceType(), active);
      r.Err? <==>
        Promotion(iface, exist, existIdx, env).None?
        && NormalPath(iface, ctrlIface, exist, active, vethPeerExistInDesire, env, randomUuid, existIdx).Err?
  {
    var existIdx := ExistProfile(exist, iface.Name(), iface.IfaceType(), active);
    var promoted := Promotion(iface, exist, existIdx, env);
    if promoted.Some? then Ok(promoted.value)
    else
      var conns :- NormalPath(iface, ctrlIface, exist, active, vethPeerExistInDesire, env, randomUuid, existIdx);
      Ok(Profiles(conns))
  }

  /** Once a prefix of the ports fails, the whole list fails with that error. */
  lemma {:induction false} OvsPortErrorPersists(
    brName: string, ports: seq<OvsBridgePortConfig>, k: nat, exist: seq<NmConnection>, active: seq<string>,
    stable: bool, env: Collaborators)
    requires k <= |ports|
    requires OvsPortProfiles(brName, ports[..k], exist, active, stable, env).Err?
    ensures OvsPortProfiles(brName, ports, exist, active, stable, env)
      == OvsPortProfiles(brName, ports[..k], exist, active, stable, env)
    decreases |ports| - k
  {
    if k == |ports| {
      assert ports[..k] == ports;
    } else {
      var init := ports[..|ports| - 1];
      assert init[..k] == ports[..k];
      OvsPortErrorPersists(brName, init, k, exist, active, stable, env);
    }
  }

  /** Lines 122-135, step by step. */
  method GenCommonSettings(iface: Interface, nmConn: NmConnection, env: Collaborators)
    returns (r: Result<NmConnection>)
    ensures r == CommonSettings(iface, nmConn, env)
  {
    var conn := nmConn;
    var ip := env.ip(iface, conn);
    if ip.Err? {
      return Err(ip.error);
    }
    conn := conn.(ipv4 := ip.value.0, ipv6 := ip.value.1);
    if iface.IfaceType() != InfiniBand {
      conn := conn.(wired := env.wired(iface, conn));
    }
    conn := conn.(ovsExtIds := env.ovsExtIds(iface, conn));
    conn := conn.(ieee8021x := env.ieee8021x(iface, conn));
    conn := conn.(user := env.user(iface, conn));
    var ethtool := env.ethtool(iface, conn);
    if ethtool.Err? {
      return Err(ethtool.error);
    }
    r := Ok(conn.(ethtool := ethtool.value));
  }

  /** One more port: its profile is appended, or its error ends the list. */
  lemma OvsPortStep(
    brName: string, ports: seq<OvsBridgePortConfig>, i: nat, exist: seq<NmConnection>, active: seq<string>,
    stable: bool, env: Collaborators, ret: seq<NmConnection>)
    requires i < |ports|
    requires OvsPortProfiles(brName, ports[..i], exist, active, stable, env) == Ok(ret)
    ensures var conn := OvsPortProfile(brName, ports[i], exist, active, stable, env);
      OvsPortProfiles(brName, ports[..i + 1], exist, active, stable, env)
        == if conn.Ok? then Ok(ret + [conn.value]) else Err(conn.error)
  {
    assert ports[..i + 1][..i] == ports[..i] && ports[..i + 1][i] == ports[i];
  }

  /** Lines 141-154: the loop over the bridge's ports, stopping at the first failure. */
  method GenOvsPortProfiles(
    brName: string, ports: seq<OvsBridgePortConfig>, exist: seq<NmConnection>, active: seq<string>,
    stable: bool, env: Collaborators)
    returns (r: Result<seq<NmConnection>>)
    ensures r == OvsPortProfiles(brName, ports, exist, active, stable, env)
  {
    var ret: seq<NmConnection> := [];
    for i := 0 to |ports|
      invariant OvsPortProfiles(brName, ports[..i], exist, active, stable, env) == Ok(ret)
    {
      var port := ports[i];
      var existIdx := GetExistProfile(exist, port.name, Other(OvsPortSettingName), active);
      var conn := env.ovsPortConn(brName, port, ExistConn(exist, existIdx), stable);
      OvsPortStep(brName, ports, i, exist, active, stable, env, ret);
      if conn.Err? {
        OvsPortErrorPersists(brName, ports, i + 1, exist, active, stable, env);
        return Err(conn.error);
      }
      ret := ret + [conn.value];
    }
    assert ports[..|ports|] == ports;
    r := Ok(ret);
  }

  /** Lines 137-210: the family dispatch; the companions it creates are returned beside
      the profile. */
  method GenFamilySettings(
    iface: Interface, nmConn: NmConnection, exist: seq<NmConnection>, active: seq<string>,
    stable: bool, vethPeerExistInDesire: bool, env: Collaborators)
    returns (r: Result<(NmConnection, seq<NmConnection>)>)
    ensures r == FamilySettings(iface, nmConn, exist, active, stable, vethPeerExistInDesire, env)
  {
    var conn := nmConn;
    var ret: seq<NmConnection> := [];
    match iface {
      case OvsBridgeIface(base, ports, _) =>
        conn := conn.(ovsBridge := env.ovsBridge(iface, conn));
        var portConns := GenOvsPortProfiles(base.name, ports, exist, active, stable, env);
        if portConns.Err? {
          return Err(portConns.error);
        }
        ret := portConns.value;
      case LinuxBridgeIface(_, _) =>
        conn := conn.(bridge := env.bridge(iface, conn));
      case BondIface(_, _) =>
        conn := conn.(bond := env.bond(iface, conn));
      case OvsInterfaceIface(_, _) =>
        conn := conn.(ovsIface := env.ovsIface(iface, conn));
      case VlanIface(_, vlanConf) =>
        if vlanConf.Some? {
          conn := conn.(vlan := Some(env.vlanFrom(vlanConf.value)));
        }
      case VxlanIface(_, vxlanConf) =>
        if vxlanConf.Some? {
          conn := conn.(vxlan := Some(env.vxlanFrom(vxlanConf.value)));
        }
      case EthernetIface(base, veth, _) =>
        if veth.Some? {
          conn := conn.(veth := Some(env.vethFrom(veth.value)));
          if !vethPeerExistInDesire {
            var peer := env.vethPeerConn(veth.value.peer, base.name, exist, stable);
            if peer.Err? {
              return Err(peer.error);
            }
            ret := [peer.value];
          }
          assert VethPeer(veth.value, base.name, exist, stable, vethPeerExistInDesire, env) == Ok(ret);
        }
        conn := conn.(sriov := env.sriov(iface, conn));
      case MacVlanIface(_, macVlanConf) =>
        if macVlanConf.Some? {
          conn := conn.(macVlan := Some(env.macVlanFrom(macVlanConf.value)));
        }
      case MacVtapIface(_, macVtapConf) =>
        if macVtapConf.Some? {
          conn := conn.(macVlan := Some(env.macVtapFrom(macVtapConf.value)));
        }
      case VrfIface(_, vrfConf) =>
        if vrfConf.Some? {
          conn := conn.(vrf := Some(env.vrfFrom(vrfConf.value)));
        }
      case InfiniBandIface(_, _) =>
        conn := conn.(infiniband := env.infiniband(iface, conn));
      case OtherIface(_, _) =>
    }
    r := Ok((conn, ret));
  }

  /** Lines 212-228, in the source's order. */
  method ApplyCascadeCleanup(nmConn: NmConnection, iface: Interface, ctrlIface: Option<Interface>, env: Collaborators)
    returns (r: NmConnection)
    ensures r == CascadeCleanup(nmConn, iface, ctrlIface, env)
  {
    r := nmConn;
    if r.ControllerType() != Some(BridgeSettingName) {
      r := r.(bridgePort := None);
    }
    if r.ControllerType() != Some(OvsPortSettingName) {
      r := r.(ovsIface := None);
    }
    assert r == UnlinkedGroups(nmConn);
    if ctrlIface.Some? && ctrlIface.value.LinuxBridgeIface? {
      r := r.(bridgePort := env.bridgePort(ctrlIface.value, r));
    }
    if iface.base.controller == Some("") {
      r := r.(ovsIface := None);
    }
  }

  /** Lines 65-111: the promotion checks; `None` lets the caller take the normal path. */
  method CheckPromotion(iface: Interface, exist: seq<NmConnection>, existIdx: Option<nat>, env: Collaborators)
    returns (r: Option<Compiled>)
    requires existIdx.Some? ==> existIdx.value < |exist|
    ensures r == Promotion(iface, exist, existIdx, env)
  {
    if env.isUpExistConfig(iface) {
      if existIdx.Some? {
        var existConn := exist[existIdx.value];
        if !env.isUserspace(iface) && External in existConn.flags {
          var cur := env.kernelIfaceWithRoute(iface.Name());
          if cur.Some? {
            var substitute := cur.value;
            if substitute.EthernetIface? {
              substitute := substitute.(veth := None, base := substitute.base.(ifaceType := Ethernet));
            }
            return Some(Recompile(substitute));
          }
        }
        return Some(Profiles([existConn]));
      } else if !env.isUserspace(iface) {
        var cur := env.kernelIfaceWithRoute(iface.Name());
        if cur.Some? && env.isIgnore(cur.value) {
          return Some(Recompile(cur.value));
        }
      }
    }
    r := None;
  }

  /** Lines 233-248: the OVS port profile for an attachment to an OVS bridge outside
      this compilation. */
  method GenImplicitOvsPort(iface: Interface, ctrlIface: Option<Interface>, stable: bool, env: Collaborators)
    returns (r: Result<seq<NmConnection>>)
    ensures r == ImplicitOvsPort(iface, ctrlIface, stable, env)
  {
    r := Ok([]);
    if iface.base.controllerType == Some(OvsBridge) && ctrlIface.None? {
      if iface.base.controller.Some? {
        var port := env.ovsPortConn(
          iface.base.controller.value, OvsBridgePortConfig(iface.Name(), EmptyOpaque), None, stable);
        if port.Err? {
          return Err(port.error);
        }
        r := Ok([port.value]);
      }
    }
  }

  /** Lines 112-252: the normal path, from the starting profile to the ordered list. */
  method GenNormalPath(
    iface: Interface, ctrlIface: Option<Interface>, exist: seq<NmConnection>, active: seq<string>,
    vethPeerExistInDesire: bool, env: Collaborators, randomUuid: string, existIdx: Option<nat>)
    returns (r: Result<seq<NmConnection>>)
    requires existIdx.Some? ==> existIdx.value < |exist|
    ensures r == NormalPath(iface, ctrlIface, exist, active, vethPeerExistInDesire, env, randomUuid, existIdx)
  {
    var nmConn := if existIdx.Some? then exist[existIdx.value] else DefaultNmConnection;
    nmConn := nmConn.(flags := []);
    assert nmConn == StartingProfile(exist, existIdx);
    var stable := |exist| == 0;
    var withSetting := GenNmConnSetting(iface, nmConn, stable, env, randomUuid);
    if withSetting.Err? {
      return Err(withSetting.error);
    }
    assert NormalPath(iface, ctrlIface, exist, active, vethPeerExistInDesire, env, randomUuid, existIdx)
      == SettingsAndCompanions(iface, ctrlIface, withSetting.value, exist, active, stable, vethPeerExistInDesire, env);
    r := GenSettingsAndCompanions(
      iface, ctrlIface, withSetting.value, exist, active, stable, vethPeerExistInDesire, env);
  }

  /** Lines 122-252: the common setting groups, then the rest. */
  method GenSettingsAndCompanions(
    iface: Interface, ctrlIface: Option<Interface>, withSetting: NmConnection, exist: seq<NmConnection>,
    active: seq<string>, stable: bool, vethPeerExistInDesire: bool, env: Collaborators)
    returns (r: Result<seq<NmConnection>>)
    ensures r == SettingsAndCompanions(iface, ctrlIface, withSetting, exist, active, stable, vethPeerExistInDesire, env)
  {
    var common := GenCommonSettings(iface, withSetting, env);
    if common.Err? {
      return Err(common.error);
    }
    r := GenAfterCommon(iface, ctrlIface, common.value, exist, active, stable, vethPeerExistInDesire, env);
  }

  /** Lines 137-252: the family dispatch, then the assembly. */
  method GenAfterCommon(
    iface: Interface, ctrlIface: Option<Interface>, common: NmConnection, exist: seq<NmConnection>,
    active: seq<string>, stable: bool, vethPeerExistInDesire: bool, env: Collaborators)
    returns (r: Result<seq<NmConnection>>)
    ensures r == AfterCommon(iface, ctrlIface, common, exist, active, stable, vethPeerExistInDesire, env)
  {
    var family := GenFamilySettings(iface, common, exist, active, stable, vethPeerExistInDesire, env);
    if family.Err? {
      return Err(family.error);
    }
    r := GenAssembled(iface, ctrlIface, family.value, stable, env);
  }

  /** Lines 212-252: the cleanup on the primary profile, the implicit OVS port after the
      family's companions, and the primary profile inserted at the front. */
  method GenAssembled(
    iface: Interface, ctrlIface: Option<Interface>, family: (NmConnection, seq<NmConnection>), stable: bool,
    env: Collaborators)
    returns (r: Result<seq<NmConnection>>)
    ensures r == Assembled(iface, ctrlIface, family, stable, env)
  {
    var primary := ApplyCascadeCleanup(family.0, iface, ctrlIface, env);
    var ret := family.1;
    var implicit := GenImplicitOvsPort(iface, ctrlIface, stable, env);
    if implicit.Err? {
      return Err(implicit.error);
    }
    ret := ret + implicit.value;
    ret := [primary] + ret;
    assert ret == [primary] + family.1 + implicit.value;
    r := Ok(ret);
  }

  /** `iface_to_nm_connections`: the matched profile, the promotion checks, then the
      normal path. */
  method IfaceToNmConnections(
    iface: Interface, ctrlIface: Option<Interface>, exist: seq<NmConnection>, active: seq<string>,
    vethPeerExistInDesire: bool, env: Collaborators, randomUuid: string)
    returns (r: Result<Compiled>)
    ensures r == CompileSpec(iface, ctrlIface, exist, active, vethPeerExistInDesire, env, randomUuid)
  {
    var existIdx := GetExistProfile(exist, iface.base.name, iface.base.ifaceType, active);
    var promoted := CheckPromotion(iface, exist, existIdx, env);
    if promoted.Some? {
      return Ok(promoted.value);
    }
    var conns := GenNormalPath(iface, ctrlIface, exist, active, vethPeerExistInDesire, env, randomUuid, existIdx);
    if conns.Err? {
      return Err(conns.error);
    }
    r := Ok(Profiles(conns.value));
  }

  /** The existing profile the matcher picks for the interface itself. */
  function MatchedIdx(iface: Interface, exist: seq<NmConnection>, active: seq<string>): (r: Option<nat>)
    ensures r.Some? ==> r.value < |exist|
  {
    ExistProfile(exist, iface.Name(), iface.IfaceType(), active)
  }

  /** Neither promotion path applies. */
  predicate TakesNormalPath(iface: Interface, exist: seq<NmConnection>, active: seq<string>, env: Collaborators) {
    Promotion(iface, exist, MatchedIdx(iface, exist, active), env).None?
  }

  /** The identity sub-record the normal path gives the primary profile. */
  function PrimaryConnSetting(
    iface: Interface, exist: seq<NmConnection>, active: seq<string>, env: Collaborators, randomUuid: string)
    : Result<NmConnection>
  {
    ConnSetting(iface, StartingProfile(exist, MatchedIdx(iface, exist, active)), |exist| == 0, env, randomUuid)
  }

  /** On the normal path a successful compilation is the identity sub-record followed by
      everything after it. */
  lemma NormalPathUnfolds(
    iface: Interface, ctrlIface: Option<Interface>, exist: seq<NmConnection>, active: seq<string>,
    vethPeerExistInDesire: bool, env: Collaborators, randomUuid: string)
    requires TakesNormalPath(iface, exist, active, env)
    requires CompileSpec(iface, ctrlIface, exist, active, vethPeerExistInDesire, env, randomUuid).Ok?
    ensures PrimaryConnSetting(iface, exist, active, env, randomUuid).Ok?
    ensures var withSetting := PrimaryConnSetting(iface, exist, active, env, randomUuid).value;
      var rest := SettingsAndCompanions(
        iface, ctrlIface, withSetting, exist, active, |exist| == 0, vethPeerExistInDesire, env);
      && rest.Ok?
      && CompileSpec(iface, ctrlIface, exist, active, vethPeerExistInDesire, env, randomUuid) == Ok(Profiles(rest.value))
  {
  }

  /** Which companions the family dispatch creates. */
  lemma FamilyCompanions(
    iface: Interface, nmConn: NmConnection, exist: seq<NmConnection>, active: seq<string>,
    stable: bool, vethPeerExistInDesire: bool, env: Collaborators)
    requires FamilySettings(iface, nmConn, exist, active, stable, vethPeerExistInDesire, env).Ok?
    ensures var companions := FamilySettings(iface, nmConn, exist, active, stable, vethPeerExistInDesire, env).value.1;
      && (iface.OvsBridgeIface? ==>
            OvsPortProfiles(iface.Name(), iface.ports, exist, active, stable, env) == Ok(companions))
      && (iface.HasVeth() && !vethPeerExistInDesire ==>
            |companions| == 1
            && env.vethPeerConn(iface.veth.value.peer, iface.Name(), exist, stable) == Ok(companions[0]))
      && (!iface.OvsBridgeIface? && !(iface.HasVeth() && !vethPeerExistInDesire) ==> companions == [])
  {
  }

  /** The parts the list is assembled from. */
  lemma SettingsAndCompanionsParts(
    iface: Interface, ctrlIface: Option<Interface>, withSetting: NmConnection, exist: seq<NmConnection>,
    active: seq<string>, stable: bool, vethPeerExistInDesire: bool, env: Collaborators)
    returns (family: (NmConnection, seq<NmConnection>), implicit: seq<NmConnection>)
    requires SettingsAndCompanions(iface, ctrlIface, withSetting, exist, active, stable, vethPeerExistInDesire, env).Ok?
    ensures CommonSettings(iface, withSetting, env).Ok?
    ensures FamilySettings(iface, CommonSettings(iface, withSetting, env).value, exist, active, stable,
                           vethPeerExistInDesire, env) == Ok(family)
    ensures ImplicitOvsPort(iface, ctrlIface, stable, env) == Ok(implicit)
    ensures SettingsAndCompanions(iface, ctrlIface, withSetting, exist, active, stable, vethPeerExistInDesire, env).value
      == [CascadeCleanup(family.0, iface, ctrlIface, env)] + family.1 + implicit
  {
    var common := CommonSettings(iface, withSetting, env).value;
    family := FamilySettings(iface, common, exist, active, stable, vethPeerExistInDesire, env).value;
    implicit := ImplicitOvsPort(iface, ctrlIface, stable, env).value;
  }

  /** The primary profile leads the list: it keeps the flags and the identity sub-record it
      came in with, and carries no bridge-port or OVS-interface group that its controller
      linkage does not call for. */
  lemma PrimaryAfterSettings(
    iface: Interface, ctrlIface: Option<Interface>, withSetting: NmConnection, exist: seq<NmConnection>,
    active: seq<string>, stable: bool, vethPeerExistInDesire: bool, env: Collaborators)
    requires SettingsAndCompanions(iface, ctrlIface, withSetting, exist, active, stable, vethPeerExistInDesire, env).Ok?
    ensures |SettingsAndCompanions(iface, ctrlIface, withSetting, exist, active, stable, vethPeerExistInDesire, env).value| >= 1
    ensures var p := SettingsAndCompanions(
        iface, ctrlIface, withSetting, exist, active, stable, vethPeerExistInDesire, env).value[0];
      && p.flags == withSetting.flags
      && p.connection == withSetting.connection
      && (p.bridgePort.Some? ==>
            p.ControllerType() == Some(BridgeSettingName) || (ctrlIface.Some? && ctrlIface.value.LinuxBridgeIface?))
      && (p.ovsIface.Some? ==> p.ControllerType() == Some(OvsPortSettingName) && iface.base.controller != Some(""))
      && (iface.HasVeth() ==> p.veth == Some(env.vethFrom(iface.veth.value)))
  {
  }

  /** The family's companions sit right behind the primary profile: the OVS ports in port
      order, or the veth peer. */
  lemma {:induction false} AssemblyLayout(
    iface: Interface, primary: NmConnection, companions: seq<NmConnection>, implicit: seq<NmConnection>,
    exist: seq<NmConnection>, active: seq<string>, stable: bool, vethPeerExistInDesire: bool, env: Collaborators)
    requires |companions| == FamilyCompanionCount(iface, vethPeerExistInDesire)
    requires iface.OvsBridgeIface? ==>
      OvsPortProfiles(iface.Name(), iface.ports, exist, active, stable, env) == Ok(companions)
    requires iface.HasVeth() && !vethPeerExistInDesire ==>
      env.vethPeerConn(iface.veth.value.peer, iface.Name(), exist, stable) == Ok(companions[0])
    ensures var conns := [primary] + companions + implicit;
      && (iface.OvsBridgeIface? ==> forall i :: 0 <= i < |iface.ports| ==>
            OvsPortProfile(iface.Name(), iface.ports[i], exist, active, stable, env) == Ok(conns[1 + i]))
      && (iface.HasVeth() && !vethPeerExistInDesire ==>
            env.vethPeerConn(iface.veth.value.peer, iface.Name(), exist, stable) == Ok(conns[1]))
  {
    var conns := [primary] + companions + implicit;
    assert forall i :: 0 <= i < |companions| ==> conns[1 + i] == companions[i];
  }

  /** The implicit OVS port comes last, after the primary profile and the family's
      companions. */
  lemma {:induction false} ImplicitPortLast(
    iface: Interface, ctrlIface: Option<Interface>, primary: NmConnection, companions: seq<NmConnection>,
    implicit: seq<NmConnection>, stable: bool, env: Collaborators)
    requires ImplicitOvsPort(iface, ctrlIface, stable, env) == Ok(implicit)
    ensures |[primary] + companions + implicit|
      == 1 + |companions| + (if NeedsImplicitOvsPort(iface, ctrlIface) then 1 else 0)
    ensures NeedsImplicitOvsPort(iface, ctrlIface) ==>
      env.ovsPortConn(iface.base.controller.value, OvsBridgePortConfig(iface.Name(), EmptyOpaque), None, stable)
        == Ok(([primary] + companions + implicit)[1 + |companions|])
  {
    if NeedsImplicitOvsPort(iface, ctrlIface) {
      assert ([primary] + companions + implicit)[1 + |companions|] == implicit[0];
    }
  }

  /** The companions follow the primary profile in the source's order: the OVS ports of a
      bridge in port order, or the veth peer, then the implicit OVS port. */
  lemma CompanionsAfterSettings(
    iface: Interface, ctrlIface: Option<Interface>, withSetting: NmConnection, exist: seq<NmConnection>,
    active: seq<string>, stable: bool, vethPeerExistInDesire: bool, env: Collaborators)
    requires SettingsAndCompanions(iface, ctrlIface, withSetting, exist, active, stable, vethPeerExistInDesire, env).Ok?
    ensures |SettingsAndCompanions(iface, ctrlIface, withSetting, exist, active, stable, vethPeerExistInDesire, env).value|
      == 1 + FamilyCompanionCount(iface, vethPeerExistInDesire) + (if NeedsImplicitOvsPort(iface, ctrlIface) then 1 else 0)
    ensures var conns := SettingsAndCompanions(
        iface, ctrlIface, withSetting, exist, active, stable, vethPeerExistInDesire, env).value;
      var n := FamilyCompanionCount(iface, vethPeerExistInDesire);
      && (iface.OvsBridgeIface? ==> forall i :: 0 <= i < |iface.ports| ==>
            OvsPortProfile(iface.Name(), iface.ports[i], exist, active, stable, env) == Ok(conns[1 + i]))
      && (iface.HasVeth() && !vethPeerExistInDesire ==>
            env.vethPeerConn(iface.veth.value.peer, iface.Name(), exist, stable) == Ok(conns[1]))
      && (NeedsImplicitOvsPort(iface, ctrlIface) ==>
            env.ovsPortConn(iface.base.controller.value, OvsBridgePortConfig(iface.Name(), EmptyOpaque), None, stable)
              == Ok(conns[1 + n]))
  {
    var family, implicit := SettingsAndCompanionsParts(
      iface, ctrlIface, withSetting, exist, active, stable, vethPeerExistInDesire, env);
    FamilyCompanions(iface, CommonSettings(iface, withSetting, env).value, exist, active, stable, vethPeerExistInDesire, env);
    var primary := CascadeCleanup(family.0, iface, ctrlIface, env);
    AssemblyLayout(iface, primary, family.1, implicit, exist, active, stable, vethPeerExistInDesire, env);
    ImplicitPortLast(iface, ctrlIface, primary, family.1, implicit, stable, env);
  }

  /** The primary profile comes first, with its runtime flags cleared and the identity
      sub-record the identity assigner produced; the companions follow it, and the
      cleanup leaves only the groups its controller linkage calls for. */
  lemma {:induction false} CompileLayout(
    iface: Interface, ctrlIface: Option<Interface>, exist: seq<NmConnection>, active: seq<string>,
    vethPeerExistInDesire: bool, env: Collaborators, randomUuid: string)
    requires TakesNormalPath(iface, exist, active, env)
    requires CompileSpec(iface, ctrlIface, exist, active, vethPeerExistInDesire, env, randomUuid).Ok?
    ensures CompileSpec(iface, ctrlIface, exist, active, vethPeerExistInDesire, env, randomUuid).value.Profiles?
    ensures PrimaryConnSetting(iface, exist, active, env, randomUuid).Ok?
    ensures var conns := CompileSpec(iface, ctrlIface, exist, active, vethPeerExistInDesire, env, randomUuid).value.conns;
      var n := FamilyCompanionCount(iface, vethPeerExistInDesire);
      var stable := |exist| == 0;
      && |conns| == 1 + n + (if NeedsImplicitOvsPort(iface, ctrlIface) then 1 else 0)
      && conns[0].flags == []
      && conns[0].connection == PrimaryConnSetting(iface, exist, active, env, randomUuid).value.connection
      && (conns[0].bridgePort.Some? ==>
            conns[0].ControllerType() == Some(BridgeSettingName)
            || (ctrlIface.Some? && ctrlIface.value.LinuxBridgeIface?))
      && (conns[0].ovsIface.Some? ==>
            conns[0].ControllerType() == Some(OvsPortSettingName) && iface.base.controller != Some(""))
      && (iface.HasVeth() ==> conns[0].veth == Some(env.vethFrom(iface.veth.value)))
      && (iface.OvsBridgeIface? ==> forall i :: 0 <= i < |iface.ports| ==>
            OvsPortProfile(iface.Name(), iface.ports[i], exist, active, stable, env) == Ok(conns[1 + i]))
      && (iface.HasVeth() && !vethPeerExistInDesire ==>
            env.vethPeerConn(iface.veth.value.peer, iface.Name(), exist, stable) == Ok(conns[1]))
      && (NeedsImplicitOvsPort(iface, ctrlIface) ==>
            env.ovsPortConn(iface.base.controller.value, OvsBridgePortConfig(iface.Name(), EmptyOpaque), None, stable)
              == Ok(conns[1 + n]))
  {
    NormalPathUnfolds(iface, ctrlIface, exist, active, vethPeerExistInDesire, env, randomUuid);
    var withSetting := PrimaryConnSetting(iface, exist, active, env, randomUuid).value;
    assert withSetting.flags == [];
    PrimaryAfterSettings(iface, ctrlIface, withSetting, exist, active, |exist| == 0, vethPeerExistInDesire, env);
    CompanionsAfterSettings(iface, ctrlIface, withSetting, exist, active, |exist| == 0, vethPeerExistInDesire, env);
  }

  /** The UUID of the primary profile: kept from the matched profile when that one has an
      identity sub-record; otherwise derived from name and type when there are no existing
      profiles at all, and the random draw when there are some. */
  lemma UuidPolicy(
    iface: Interface, ctrlIface: Option<Interface>, exist: seq<NmConnection>, active: seq<string>,
    vethPeerExistInDesire: bool, env: Collaborators, randomUuid: string)
    requires TakesNormalPath(iface, exist, active, env)
    requires CompileSpec(iface, ctrlIface, exist, active, vethPeerExistInDesire, env, randomUuid).Ok?
    ensures CompileSpec(iface, ctrlIface, exist, active, vethPeerExistInDesire, env, randomUuid).value.Profiles?
    ensures var conns := CompileSpec(iface, ctrlIface, exist, active, vethPeerExistInDesire, env, randomUuid).value.conns;
      var idx := MatchedIdx(iface, exist, active);
      && |conns| >= 1
      && (idx.Some? && exist[idx.value].connection.Some? ==> conns[0].Uuid() == exist[idx.value].Uuid())
      && (exist == [] ==> conns[0].Uuid() == Some(UuidFromNameAndType(iface.Name(), iface.IfaceType(), env)))
      && (exist != [] && (idx.None? || exist[idx.value].connection.None?) ==> conns[0].Uuid() == Some(randomUuid))
  {
    CompileLayout(iface, ctrlIface, exist, active, vethPeerExistInDesire, env, randomUuid);
  }

  /** With no existing profiles the output is a function of the desired state alone:
      the random draw does not matter. */
  lemma StableModeIgnoresRandom(
    iface: Interface, ctrlIface: Option<Interface>, active: seq<string>,
    vethPeerExistInDesire: bool, env: Collaborators, randomA: string, randomB: string)
    ensures CompileSpec(iface, ctrlIface, [], active, vethPeerExistInDesire, env, randomA)
      == CompileSpec(iface, ctrlIface, [], active, vethPeerExistInDesire, env, randomB)
  {
  }

  /** An interface asking to keep its live configuration, whose matched profile is not an
      externally managed one with a live counterpart, compiles to that profile unchanged. */
  lemma ReusesUpExistingProfile(
    iface: Interface, ctrlIface: Option<Interface>, exist: seq<NmConnection>, active: seq<string>,
    vethPeerExistInDesire: bool, env: Collaborators, randomUuid: string)
    requires env.isUpExistConfig(iface)
    requires MatchedIdx(iface, exist, active).Some?
    requires var c := exist[MatchedIdx(iface, exist, active).value];
      env.isUserspace(iface) || External !in c.flags || env.kernelIfaceWithRoute(iface.Name()).None?
    ensures CompileSpec(iface, ctrlIface, exist, active, vethPeerExistInDesire, env, randomUuid)
      == Ok(Profiles([exist[MatchedIdx(iface, exist, active).value]]))
  {
  }

  /** A promotion always substitutes the live interface: without its veth configuration on
      the external-profile path, unchanged on the ignored-interface path. */
  lemma RecompileUsesLiveInterface(
    iface: Interface, ctrlIface: Option<Interface>, exist: seq<NmConnection>, active: seq<string>,
    vethPeerExistInDesire: bool, env: Collaborators, randomUuid: string)
    requires CompileSpec(iface, ctrlIface, exist, active, vethPeerExistInDesire, env, randomUuid).Ok?
    requires CompileSpec(iface, ctrlIface, exist, active, vethPeerExistInDesire, env, randomUuid).value.Recompile?
    ensures var sub := CompileSpec(iface, ctrlIface, exist, active, vethPeerExistInDesire, env, randomUuid).value.substitute;
      var live := env.kernelIfaceWithRoute(iface.Name());
      && env.isUpExistConfig(iface) && !env.isUserspace(iface) && live.Some?
      && (sub == WithoutVeth(live.value) || (sub == live.value && env.isIgnore(live.value)))
      && (MatchedIdx(iface, exist, active).Some? ==> sub == WithoutVeth(live.value))
      && (MatchedIdx(iface, exist, active).None? ==> sub == live.value && env.isIgnore(live.value))
  {
  }

  /** Dropping the veth configuration twice changes nothing more than dropping it once. */
  lemma WithoutVethIdempotent(cur: Interface)
    ensures WithoutVeth(WithoutVeth(cur)) == WithoutVeth(cur)
  {
  }

  /** On the normal path, an own type or a controller type without an on-wire type is a
      NotImplementedError: a profile matching an unmappable type is never found, so the
      identity sub-record is always built fresh. */
  lemma UnsupportedTypeFails(
    iface: Interface, ctrlIface: Option<Interface>, exist: seq<NmConnection>, active: seq<string>,
    vethPeerExistInDesire: bool, env: Collaborators, randomUuid: string)
    requires TakesNormalPath(iface, exist, active, env)
    requires || iface.IfaceType() in UnsupportedTypes
             || (iface.base.controllerType.Some? && iface.base.controllerType.value in UnsupportedTypes)
    ensures CompileSpec(iface, ctrlIface, exist, active, vethPeerExistInDesire, env, randomUuid)
      == Err(NmstateError(NotImplementedError))
  {
  }

  /** Detaching (an empty controller name) clears the controller linkage and drops the OVS
      interface group; a bridge-port group survives only when a Linux bridge controller
      interface is given. */
  lemma DetachClearsLinkage(
    iface: Interface, ctrlIface: Option<Interface>, exist: seq<NmConnection>, active: seq<string>,
    vethPeerExistInDesire: bool, env: Collaborators, randomUuid: string)
    requires TakesNormalPath(iface, exist, active, env)
    requires iface.base.controller == Some("")
    requires CompileSpec(iface, ctrlIface, exist, active, vethPeerExistInDesire, env, randomUuid).Ok?
    ensures CompileSpec(iface, ctrlIface, exist, active, vethPeerExistInDesire, env, randomUuid).value.Profiles?
    ensures var conns := CompileSpec(iface, ctrlIface, exist, active, vethPeerExistInDesire, env, randomUuid).value.conns;
      && |conns| >= 1
      && conns[0].connection.Some?
      && conns[0].connection.value.controller == None
      && conns[0].ControllerType() == None
      && conns[0].ovsIface == None
      && (conns[0].bridgePort.Some? ==> ctrlIface.Some? && ctrlIface.value.LinuxBridgeIface?)
  {
    CompileLayout(iface, ctrlIface, exist, active, vethPeerExistInDesire, env, randomUuid);
    ConnSettingController(
      iface, StartingProfile(exist, MatchedIdx(iface, exist, active)), |exist| == 0, env, randomUuid);
  }
}
