/** The collaborators the compiler calls but whose code is not part of this model:
    predicates on interfaces, the live-state lookup, UUID derivation, the leaf setting
    generators, the `From` conversions into setting groups and the companion builders.
    Each is an arbitrary function of the right type, so every property proved about the
    compiler holds whatever they compute.  A leaf generator returns the new value of the
    setting group it owns; it cannot write any other part of the profile. */
module Leaves {
  import opened Types

  /** A generator that fills one setting group from the interface and the profile so far. */
  type GroupGen = (Interface, NmConnection) -> Option<Opaque>

  datatype Collaborators = Collaborators(
    // Predicates on interfaces
    isController: Interface -> bool,
    isUserspace: Interface -> bool,
    isUpExistConfig: Interface -> bool,
    isIgnore: Interface -> bool,
    // `cur_net_state.get_kernel_iface_with_route(name)`
    kernelIfaceWithRoute: string -> Option<Interface>,
    // The `Display` text of a family, and a version-5 UUID over the URL namespace
    // (section 4.3 of RFC 4122), hyphenated
    displayType: InterfaceType -> string,
    uuidV5Url: string -> string,
    // `apply_mptcp_conf`: the MPTCP flags for a configuration, or an error
    mptcpFlags: Opaque -> Result<Opaque>,
    // Leaf setting generators
    ip: (Interface, NmConnection) -> Result<(Option<Opaque>, Option<Opaque>)>,
    wired: GroupGen,
    ovsExtIds: GroupGen,
    ieee8021x: GroupGen,
    user: GroupGen,
    ethtool: (Interface, NmConnection) -> Result<Option<Opaque>>,
    ovsBridge: GroupGen,
    bridge: GroupGen,
    bond: GroupGen,
    ovsIface: GroupGen,
    sriov: GroupGen,
    infiniband: GroupGen,
    bridgePort: GroupGen,
    // `From` conversions of family configurations into setting groups
    vlanFrom: Opaque -> Opaque,
    vxlanFrom: Opaque -> Opaque,
    macVlanFrom: Opaque -> Opaque,
    macVtapFrom: Opaque -> Opaque,
    vrfFrom: Opaque -> Opaque,
    vethFrom: VethConfig -> Opaque,
    // Companion builders: `create_ovs_port_nm_conn(bridge, port, existing, stable)` and
    // `create_veth_peer_profile_if_not_found(peer, local, existing profiles, stable)`
    ovsPortConn: (string, OvsBridgePortConfig, Option<NmConnection>, bool) -> Result<NmConnection>,
    vethPeerConn: (string, string, seq<NmConnection>, bool) -> Result<NmConnection>)
}
