# nmstate: NetworkManager profile compiler and IP revert planner

This project models two pieces of nmstate's Rust library in Dafny and proves properties
about them.

The first piece is the **profile compiler** (`rust/src/lib/nm/settings/connection.rs`).
It turns one desired interface into an ordered list of NetworkManager connection
profiles: the interface's own (primary) profile first, then the companion profiles it
needs. It has five parts:

- the type mapper (`iface_type_to_nm`): from an interface family to NetworkManager's
  on-wire connection type;
- the profile matcher (`get_exist_profile`): picks the existing profile to reuse, and
  prefers an active one;
- the identity assigner (`gen_nm_conn_setting`, `uuid_from_name_and_type`): builds or
  keeps the `connection` sub-record (display name, UUID, type, name binding,
  autoconnect, controller linkage, LLDP, MPTCP);
- the promotion checks: an interface that asks to keep its live configuration reuses
  its profile unchanged, or is compiled again from the live interface, or, when no
  profile matches and the interface is userspace or has no ignored live counterpart,
  goes on to the normal path;
- the normal path (`iface_to_nm_connections`): setting groups, family dispatch, OVS port
  and veth peer companions, the bridge-port / OVS-interface cleanup, the implicit OVS
  port, and assembly of the list.

The second piece is the **revert planner** (`BaseInterface::generate_revert_extra` in
`rust/src/lib/revert/ifaces/base.rs`). It overwrites the IPv4/IPv6 parts of an
auto-generated revert state from the current state under two rules, then sanitises them
on a best-effort basis.

Layout, one module per file:

- `types.dfy` (`Types`): interfaces, profiles, `Option`/`Result`.
- `type_mapper.dfy` (`TypeMapper`), `profile_matcher.dfy` (`ProfileMatcher`),
  `identity_assigner.dfy` (`IdentityAssigner`), `compiler.dfy` (`Compiler`): the compiler.
- `leaves.dfy` (`Leaves`): the collaborators the compiler calls. Each is an arbitrary
  function-typed field of a `Collaborators` record, so every property holds whatever the
  collaborators compute.
- `revert.dfy` (`Revert`): the planner.

Imperative code becomes methods:

- the scan loop of `get_exist_profile`, the port loop, and the step-by-step field
  updates of `gen_nm_conn_setting` and `iface_to_nm_connections` are methods;
- each method is proved equal to a specification function;
- the properties are then proved, as lemmas, about those functions.

Rust's `&mut` on plain structs (`&mut NmConnection`, `&mut NmSettingConnection`) is
modelled as passing the old value in and returning the new one. The source's borrow
rules exclude aliasing, so nothing is lost. The planner's `&mut self` is the `base`
field of the `RevertState` class, which its method modifies.

Two inputs are parameters:

- the random version-4 UUID drawn for a non-stable fresh profile is the `randomUuid`
  parameter;
- the live network state is the `kernelIfaceWithRoute` collaborator.

## Model

| member | source | states |
|---|---|---|
| TypeMapper.IfaceTypeToNm | rust/src/lib/nm/settings/connection.rs:255-288 | Mapping fails, with NotImplementedError, exactly for the families without an on-wire type. `Other(s)` maps to `s` verbatim. LinuxBridge maps to "bridge", Ethernet to "802-3-ethernet", and MacVlan and MacVtap both to "macvlan"; `BuiltinTable` gives the other built-in entries. Every built-in result is a NetworkManager setting name. |
| TypeMapper.BuiltinTable | rust/src/lib/nm/settings/connection.rs:259-280 | The remaining fixed entries of the table: Bond "bond", OvsBridge "ovs-bridge", OvsInterface "ovs-interface", Vlan "vlan", Vxlan "vxlan", Dummy "dummy", Vrf "vrf", Veth "veth", InfiniBand "infiniband". |
| TypeMapper.NmTypeDeterminesFamily | rust/src/lib/nm/settings/connection.rs:255-288 | Two built-in families with the same on-wire type are the same family. The one exception is MacVlan/MacVtap. |
| TypeMapper.OnlyEthernetIsWired | rust/src/lib/nm/settings/connection.rs:255-288 | Only Ethernet, or a verbatim `Other("802-3-ethernet")`, maps to the wired type. |
| ProfileMatcher.FirstActive | rust/src/lib/nm/settings/connection.rs:396-415 | Returns the index of the first candidate whose UUID is active. None exactly when no candidate is active. |
| ProfileMatcher.LastCandidate | rust/src/lib/nm/settings/connection.rs:396-417 | Returns the index of the last candidate, in input order. None exactly when there is no candidate. |
| ProfileMatcher.ExistProfile | rust/src/lib/nm/settings/connection.rs:389-418 | The chosen profile is a candidate for the name and the mapped type. None exactly when the type cannot be mapped or no profile is a candidate. |
| ProfileMatcher.GetExistProfile | rust/src/lib/nm/settings/connection.rs:389-418 | The scan with early return and final pop computes `ExistProfile`: the first active candidate, otherwise the last candidate. |
| ProfileMatcher.PrefersActive | rust/src/lib/nm/settings/connection.rs:404-410 | If any candidate is active, the result is active, comes no later than it, and no earlier candidate is active. |
| ProfileMatcher.FallsBackToLast | rust/src/lib/nm/settings/connection.rs:411-417 | With no active candidate, the result is the last candidate. |
| ProfileMatcher.MatchedProfileFields | rust/src/lib/nm/settings/connection.rs:402-406 | The matched profile binds the requested name. Its type is the mapped type, or veth for a wired request. |
| ProfileMatcher.VethRequestMatchesOnlyVeth | rust/src/lib/nm/settings/connection.rs:402-406 | The veth/wired equivalence is one-way: a Veth request only matches veth profiles. |
| ProfileMatcher.EthernetRequestMatchesVeth | rust/src/lib/nm/settings/connection.rs:402-406 | In any list, a veth profile of the requested name is a candidate for an Ethernet request, so the matcher finds a profile. |
| ProfileMatcher.ActiveWinsInEitherOrder | rust/src/lib/nm/settings/connection.rs:404-417 | Of an active candidate and an inactive one, the active one wins in either order. |
| ProfileMatcher.LastInactiveWins | rust/src/lib/nm/settings/connection.rs:411-417 | Of two inactive candidates, the later one wins. |
| IdentityAssigner.ConnName | rust/src/lib/nm/settings/connection.rs:299-312 | A fresh display name is the interface name plus "-br" for an OVS bridge, plus "-port" for an OVS port, plus "-if" for an OVS interface, and the plain interface name for every other family. |
| IdentityAssigner.SwitchProfileNamesDistinct | rust/src/lib/nm/settings/connection.rs:299-312 | The OVS bridge, port and interface profiles of one name, and a plain interface of that name, get four distinct display names. |
| IdentityAssigner.UuidUrl | rust/src/lib/nm/settings/connection.rs:376-386 | The text hashed into a stable UUID is the family's display text, then "://", then the interface name. |
| IdentityAssigner.DistinctNamesDistinctUrls | rust/src/lib/nm/settings/connection.rs:376-386 | Two different interface names of one family give different hashed texts. |
| IdentityAssigner.UuidFromNameAndType | rust/src/lib/nm/settings/connection.rs:376-386 | A stable UUID is the version-5 URL-namespace UUID of `UuidUrl`. |
| IdentityAssigner.StableUuidDependsOnNameAndType | rust/src/lib/nm/settings/connection.rs:315-320 | A stable UUID depends only on name and type, whatever the random draw. |
| IdentityAssigner.FreshConnSetting | rust/src/lib/nm/settings/connection.rs:298-329 | A fresh sub-record has the derived name, a stable or random UUID, and the mapped type. The type is veth for ethernet with veth configuration. It fails exactly when the own type cannot be mapped. |
| IdentityAssigner.NmControllerType | rust/src/lib/nm/settings/connection.rs:340-346 | Fails exactly when a controller type is declared and has no on-wire type, and then with NotImplementedError. On success an on-wire controller type is present exactly when one is declared, and it is the declared type's mapping. |
| IdentityAssigner.ControllerLinkage | rust/src/lib/nm/settings/connection.rs:347-363 | Only the two controller fields change. An empty name detaches. A name with a controller type attaches. Otherwise both fields are left as they were. |
| IdentityAssigner.LldpStep | rust/src/lib/nm/settings/connection.rs:364-366 | Only LLDP changes. It becomes the configured flag when LLDP is configured; otherwise the sub-record is unchanged. |
| IdentityAssigner.MptcpStep | rust/src/lib/nm/settings/connection.rs:367-369 | Fails exactly when MPTCP is configured and the collaborator rejects it. Only the MPTCP flags change, to the accepted flags; without MPTCP the sub-record is unchanged. |
| IdentityAssigner.ConnSetting | rust/src/lib/nm/settings/connection.rs:290-374 | Three errors, and no others: an unmappable own type (fresh sub-record only), an unmappable controller type, a rejected MPTCP configuration. Only `connection` changes. Name binding and autoconnect are always set. An existing sub-record keeps its id, UUID and type; a fresh one gets the derived ones. LLDP is the configured flag when LLDP is configured and the prior sub-record's value otherwise; the MPTCP flags are the collaborator's accepted flags when MPTCP is configured and the prior value otherwise. |
| IdentityAssigner.CompletedConnSetting | rust/src/lib/nm/settings/connection.rs:332-369 | Fails exactly on an unmappable controller type or a rejected MPTCP configuration. Otherwise binds the name, sets autoconnect (and ports autoconnect only on a controller), and changes no field of the sub-record it was given besides those, the two controller fields, LLDP and the MPTCP flags. LLDP becomes the configured flag only when LLDP is configured; the MPTCP flags become the accepted flags only when MPTCP is configured. |
| IdentityAssigner.CompletedLinkage | rust/src/lib/nm/settings/connection.rs:347-363 | In the completed sub-record an empty controller name detaches, a name with a declared controller type attaches with the stored type, and otherwise both controller fields keep the given values. |
| IdentityAssigner.FillConnSetting | rust/src/lib/nm/settings/connection.rs:332-369 | The in-place updates after the sub-record is chosen compute `CompletedConnSetting`. |
| IdentityAssigner.ConnSettingController | rust/src/lib/nm/settings/connection.rs:347-363 | Detach, attach and keep, as seen in the finished sub-record. |
| IdentityAssigner.OvsBridgeControllerStoredAsPort | rust/src/lib/nm/settings/connection.rs:352-361 | An OVS bridge controller is stored as "ovs-port", unless the interface is itself an OVS port. |
| IdentityAssigner.UnmappableControllerTypeFails | rust/src/lib/nm/settings/connection.rs:340-346 | An unmappable controller type is a NotImplementedError, even when the controller name is empty or absent. |
| IdentityAssigner.StableIgnoresRandom | rust/src/lib/nm/settings/connection.rs:315-320 | In stable mode the sub-record does not depend on the random draw. |
| IdentityAssigner.NewConnSetting | rust/src/lib/nm/settings/connection.rs:298-329 | The field-by-field construction computes `FreshConnSetting`. |
| IdentityAssigner.ApplyControllerLinkage | rust/src/lib/nm/settings/connection.rs:347-363 | The in-place linkage update computes `ControllerLinkage`. |
| IdentityAssigner.GenNmConnSetting | rust/src/lib/nm/settings/connection.rs:290-374 | The step-by-step update computes `ConnSetting`. On an error the profile is not updated. |
| Compiler.Promotion | rust/src/lib/nm/settings/connection.rs:65-111 | Promotion happens only for an interface asking to keep its live configuration. A reuse returns exactly the matched profile. |
| Compiler.CommonSettings | rust/src/lib/nm/settings/connection.rs:122-135 | Fails exactly when the IP step or the ethtool step fails. Only the IPv4, IPv6, wired, OVS external-ids, 802.1x, user and ethtool groups change; the identity sub-record, the flags and the bridge-port/OVS-interface groups are kept. The IPv4/IPv6 pair is the IP step's result. InfiniBand keeps its wired group; every other family gets the wired step's group, computed after the IP groups. |
| Compiler.CommonSettingsOrder | rust/src/lib/nm/settings/connection.rs:122-135 | The OVS external-ids, 802.1x, user and ethtool groups are each computed from the profile as left by the steps before it, in source order. |
| Compiler.OvsPortProfiles | rust/src/lib/nm/settings/connection.rs:141-154 | Succeeds exactly when every port's profile can be built. The result then has one profile per port, in port order, each matched by the port's name and the "ovs-port" type. |
| Compiler.OvsPortErrorPersists | rust/src/lib/nm/settings/connection.rs:148-153 | The first failing port fails the whole loop with its error. |
| Compiler.VethPeer | rust/src/lib/nm/settings/connection.rs:178-187 | A veth peer profile is created exactly when the peer is not in the desired state. |
| Compiler.FamilySettings | rust/src/lib/nm/settings/connection.rs:137-210 | Fails exactly when the companion profiles cannot be built. The profile is the family dispatch's (`FamilyGroups`): it keeps the identity sub-record and flags and sets the veth group from the veth configuration. There is one companion per OVS bridge port, or one veth peer, or none. |
| Compiler.FamilyGroups | rust/src/lib/nm/settings/connection.rs:137-210 | Each family writes its own group and no other: OVS bridge, Linux bridge, bond, OVS interface and InfiniBand always; VLAN, VXLAN, MAC VLAN and VRF only when configured; MAC VTAP into the MAC VLAN group; Ethernet the veth group (when veth is configured) and then SR-IOV. Any other family leaves the profile unchanged. |
| Compiler.FamilyCompanionProfiles | rust/src/lib/nm/settings/connection.rs:141-187 | Fails exactly when an OVS bridge port profile or a needed veth peer profile fails. Has the expected count; for an OVS bridge it is the port loop's result, and a needed veth peer is the collaborator's profile. |
| Compiler.FamilyCompanions | rust/src/lib/nm/settings/connection.rs:137-210 | The companions are the port profiles of an OVS bridge, or the single veth peer, and otherwise none. |
| Compiler.CascadeCleanup | rust/src/lib/nm/settings/connection.rs:212-228 | Only the bridge-port and OVS-interface groups change. Under a Linux bridge controller interface the bridge-port group is rebuilt from it, on the profile whose two groups have already been cleared; otherwise it is kept exactly under a "bridge" controller type and dropped otherwise. The OVS-interface group is kept exactly under an "ovs-port" controller type without a detach, and dropped otherwise. |
| Compiler.ImplicitOvsPort | rust/src/lib/nm/settings/connection.rs:233-248 | An OVS port companion is added exactly for an OVS bridge controller named but not given. It fails exactly when that companion is needed and its collaborator fails; a successful companion is the collaborator's profile for (controller, interface). |
| Compiler.NormalPath | rust/src/lib/nm/settings/connection.rs:112-252 | Fails exactly when the identity assigner, the common settings, the family companions or the implicit OVS port fail, so any failing step discards the whole list. A successful list starts with a primary profile that has empty flags and an identity sub-record. |
| Compiler.SettingsAndCompanions | rust/src/lib/nm/settings/connection.rs:122-252 | Fails exactly when the common settings, the family companions or the implicit OVS port fail. The list has one primary, the family companions and the implicit OVS port when needed; the primary keeps the identity sub-record and flags. |
| Compiler.AfterCommon | rust/src/lib/nm/settings/connection.rs:137-252 | Fails exactly when the family companions or the implicit OVS port fail. Same length and primary as `SettingsAndCompanions`. |
| Compiler.Assembled | rust/src/lib/nm/settings/connection.rs:212-252 | Fails exactly when the implicit OVS port fails. The cleaned profile comes first, then the family companions unchanged, then the implicit port. |
| Compiler.CompileSpec | rust/src/lib/nm/settings/connection.rs:49-253 | Fails exactly when no promotion applies and the normal path fails; a promotion never fails. A list of profiles is never empty. A recompilation happens only for a non-userspace interface asking to keep its live configuration; without that request a successful result is a list of profiles. |
| Compiler.GenCommonSettings | rust/src/lib/nm/settings/connection.rs:122-135 | The step-by-step update computes `CommonSettings`. |
| Compiler.GenOvsPortProfiles | rust/src/lib/nm/settings/connection.rs:141-154 | The port loop computes `OvsPortProfiles`. |
| Compiler.OvsPortStep | rust/src/lib/nm/settings/connection.rs:148-153 | One iteration of the port loop extends a successful prefix by the next port's profile, or fails with its error. |
| Compiler.GenFamilySettings | rust/src/lib/nm/settings/connection.rs:137-210 | The match computes `FamilySettings`. |
| Compiler.ApplyCascadeCleanup | rust/src/lib/nm/settings/connection.rs:212-228 | The four in-place steps compute `CascadeCleanup`. |
| Compiler.CheckPromotion | rust/src/lib/nm/settings/connection.rs:65-111 | The nested checks compute `Promotion`. |
| Compiler.GenImplicitOvsPort | rust/src/lib/nm/settings/connection.rs:233-248 | The guarded push computes `ImplicitOvsPort`. |
| Compiler.GenNormalPath | rust/src/lib/nm/settings/connection.rs:112-252 | The normal path computes `NormalPath`. |
| Compiler.GenSettingsAndCompanions | rust/src/lib/nm/settings/connection.rs:122-252 | The common step followed by `GenAfterCommon` computes `SettingsAndCompanions`. |
| Compiler.GenAfterCommon | rust/src/lib/nm/settings/connection.rs:137-252 | The family dispatch followed by `GenAssembled` computes `AfterCommon`. |
| Compiler.GenAssembled | rust/src/lib/nm/settings/connection.rs:212-252 | The cleanup, the implicit OVS port push and the insertion of the primary in front compute `Assembled`. |
| Compiler.IfaceToNmConnections | rust/src/lib/nm/settings/connection.rs:49-253 | The whole compilation computes `CompileSpec`. |
| Compiler.NormalPathUnfolds | rust/src/lib/nm/settings/connection.rs:112-121 | A successful normal path is the identity sub-record followed by the rest of the steps. |
| Compiler.SettingsAndCompanionsParts | rust/src/lib/nm/settings/connection.rs:122-252 | A successful list is the cleaned primary, then the family companions, then the implicit port, each from its step's successful result. |
| Compiler.PrimaryAfterSettings | rust/src/lib/nm/settings/connection.rs:212-228 | The list starts with the primary profile, which keeps its flags and identity sub-record. It satisfies the cleanup invariants and carries the veth group. |
| Compiler.AssemblyLayout | rust/src/lib/nm/settings/connection.rs:250-252 | Inserting the primary profile in front puts the OVS port profiles at positions 1.., in port order, and the veth peer at position 1. |
| Compiler.ImplicitPortLast | rust/src/lib/nm/settings/connection.rs:233-252 | The implicit OVS port, when added, is the last profile, after the primary and the family companions. |
| Compiler.CompanionsAfterSettings | rust/src/lib/nm/settings/connection.rs:137-250 | The length is 1 + companions + implicit port. The OVS ports are in port order, or the veth peer comes second. The implicit OVS port comes last. |
| Compiler.CompileLayout | rust/src/lib/nm/settings/connection.rs:112-252 | The primary profile comes first, with empty flags and the identity assigner's sub-record. The cleanup invariants hold, and the companions are laid out in order with the length above. |
| Compiler.UuidPolicy | rust/src/lib/nm/settings/connection.rs:112-121 | The primary's UUID is kept from a matched profile that has a sub-record. Otherwise it is stable when there are no existing profiles at all, and the random draw when there are some. |
| Compiler.StableModeIgnoresRandom | rust/src/lib/nm/settings/connection.rs:115-119 | With no existing profiles the whole output is independent of the random draw. |
| Compiler.ReusesUpExistingProfile | rust/src/lib/nm/settings/connection.rs:65-93 | Keep-live-configuration with a matched profile that is not external-with-live-counterpart returns exactly that profile. |
| Compiler.RecompileUsesLiveInterface | rust/src/lib/nm/settings/connection.rs:65-111 | A recompilation happens only for a non-userspace interface asking to keep its live configuration and having a live counterpart. With a matched profile the substitute is the live interface without veth; without one it is the live interface unchanged, and that interface is ignored. |
| Compiler.WithoutVethIdempotent | rust/src/lib/nm/settings/connection.rs:77-81 | Dropping veth twice changes nothing more than dropping it once. |
| Compiler.WithoutVeth | rust/src/lib/nm/settings/connection.rs:77-81 | The substitute has no veth configuration and the same name. An Ethernet interface keeps its configuration with plain ethernet type; any other interface is unchanged. |
| Compiler.UnsupportedTypeFails | rust/src/lib/nm/settings/connection.rs:112-121 | On the normal path an unmappable own type or controller type is a NotImplementedError. |
| Compiler.DetachClearsLinkage | rust/src/lib/nm/settings/connection.rs:224-228 | Detaching clears both controller fields and the OVS-interface group. A bridge-port group remains only with a Linux bridge controller interface. |
| Revert.Restored | rust/src/lib/revert/ifaces/base.rs:11-29 | Before sanitising, a family is the current value when either rule fires, and the revert state's own value otherwise. |
| Revert.SanitizeIp | rust/src/lib/revert/ifaces/base.rs:30-31 | Sanitising keeps presence: an absent family stays absent, a present one stays present. |
| Revert.RevertExtra | rust/src/lib/revert/ifaces/base.rs:6-32 | Only `ipv4` and `ipv6` change. Each is present exactly when its chosen source (current or own) is present. |
| Revert.RevertState.GenerateRevertExtra | rust/src/lib/revert/ifaces/base.rs:6-32 | The in-place update leaves `base` equal to `RevertExtra` of its old value. |
| Revert.WholesaleRestoresCurrent | rust/src/lib/revert/ifaces/base.rs:11-14 | When the desired state cannot have IP and the revert state can, both families come from the current state. |
| Revert.Ipv4FlipRestoresCurrent | rust/src/lib/revert/ifaces/base.rs:19-23 | A static-to-auto IPv4 switch restores the current IPv4. |
| Revert.Ipv6FlipRestoresCurrent | rust/src/lib/revert/ifaces/base.rs:25-29 | The same rule for IPv6. |
| Revert.Ipv4IndependentOfIpv6 | rust/src/lib/revert/ifaces/base.rs:19-23 | The IPv4 result does not depend on IPv6 attributes beyond the wholesale rule. |
| Revert.Ipv6IndependentOfIpv4 | rust/src/lib/revert/ifaces/base.rs:25-29 | The IPv6 result does not depend on IPv4 attributes beyond the wholesale rule. |
| Revert.NoRuleKeepsOwn | rust/src/lib/revert/ifaces/base.rs:11-31 | When no rule fires, a family keeps its own value, sanitised. An absent family stays absent. |
| Revert.SanitizeOutcomeIgnored | rust/src/lib/revert/ifaces/base.rs:30-31 | Sanitise outcomes never affect the result. The planner cannot fail. |
| Revert.RevertExtraIdempotent | rust/src/lib/revert/ifaces/base.rs:6-32 | With an idempotent sanitise step, planning twice gives the same result as planning once. |

## Left out

- The recursive call on the two promotion paths (lines 83-90 and 98-105) is not
  performed. The compilation returns `Recompile(substitute)` naming the interface the
  source would compile instead. The recursion's termination depends on the collaborators,
  which are not modelled.
- The collaborators are abstract, and each one writes only the group(s) it owns. Their
  code is not part of this model. They are:
  - the leaf setting generators (IP, wired, OVS external ids, 802.1x, user, ethtool, OVS
    bridge, bridge, bond, OVS interface, SR-IOV, InfiniBand, bridge port);
  - the `From` conversions of family configurations;
  - `create_ovs_port_nm_conn` and `create_veth_peer_profile_if_not_found`;
  - `apply_mptcp_conf`;
  - `is_controller`, `is_userspace`, `is_up_exist_config`, `is_ignore` and
    `get_kernel_iface_with_route`.
- IdentityAssigner.UuidFromNameAndType: only the URL text "<type>://<name>" fed to the
  hash is modelled (`UuidUrl`). The version-5 hash (section 4.3 of RFC 4122), its
  hyphenated text and the `Display` text of a family are collaborators.
- The version-4 random draw is the `randomUuid` parameter, because randomness is I/O.
- Error messages are not modelled, only the error kind.
- The source's `InterfaceType` variants that the type mapper rejects are represented by
  Loopback, MacSec, Ipsec, Hsr and Unknown. The model treats all of them alike, as the
  mapper's catch-all arm does.
- `iface.iface_type()` and `iface.name()` are read from the base attributes. The
  `Interface` accessors are not part of this model.
- Setting groups, family configurations, routes and IP configurations are opaque
  payloads; only their presence and identity matter here.
- `NM_SETTING_USER_SPACES` is not used by the modelled functions and is not modelled.
- Revert.RevertState.GenerateRevertExtra: `can_have_ip`, `is_auto` and `sanitize` are
  collaborators. A sanitise call that fails part-way is modelled by the value it leaves
  behind (`after`) and its ignored outcome.
