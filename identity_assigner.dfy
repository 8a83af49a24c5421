/** The identity assigner: establishes or keeps the `connection` sub-record of a profile
    (display name, UUID, on-wire type, name binding, autoconnect, controller linkage).
    Line numbers in this module refer to rust/src/lib/nm/settings/connection.rs. */
module IdentityAssigner {
  import opened Types
  import opened TypeMapper
  import opened Leaves

  /** The display name of a freshly built sub-record: the OVS bridge, port and interface
      profiles of one name carry distinct suffixes. */
  function ConnName(name: string, t: InterfaceType): (s: string)
    ensures t == OvsBridge ==> s == name + "-br"
    ensures t == Other(OvsPortSettingName) ==> s == name + "-port"
    ensures t == OvsInterface ==> s == name + "-if"
    ensures t != OvsBridge && t != Other(OvsPortSettingName) && t != OvsInterface ==> s == name
  {
    match t
    case OvsBridge => name + "-br"
    case Other(o) => if o == OvsPortSettingName then name + "-port" else name
    case OvsInterface => name + "-if"
    case _ => name
  }

  /** The OVS bridge, OVS port and OVS interface sharing one name, and any plain interface
      of that name, get four different display names. */
  lemma {:induction false} SwitchProfileNamesDistinct(name: string, plain: InterfaceType)
    requires plain != OvsBridge && plain != OvsInterface && plain != Other(OvsPortSettingName)
    ensures var br, port, ifc, p :=
      ConnName(name, OvsBridge), ConnName(name, Other(OvsPortSettingName)),
      ConnName(name, OvsInterface), ConnName(name, plain);
      br != port && br != ifc && port != ifc && p != br && p != port && p != ifc
  {
    var n := |name|;
    assert (name + "-br")[n + 1] == 'b' && (name + "-if")[n + 1] == 'i';
    assert |name + "-port"| == n + 5 && |name + "-br"| == n + 3 && |name + "-if"| == n + 3;
    assert ConnName(name, plain) == name;
  }

  /** The URL a stable UUID is derived from: the family's display text, "://", then the
      interface name. */
  function UuidUrl(name: string, t: InterfaceType, env: Collaborators): (u: string)
    ensures |u| == |env.displayType(t)| + 3 + |name|
    ensures u[..|env.displayType(t)|] == env.displayType(t)
    ensures u[|env.displayType(t)|..|env.displayType(t)| + 3] == "://"
    ensures u[|env.displayType(t)| + 3..] == name
  {
    env.displayType(t) + "://" + name
  }

  /** Two names of one family never share a URL, so they hand different inputs to the
      version-5 derivation. */
  lemma DistinctNamesDistinctUrls(a: string, b: string, t: InterfaceType, env: Collaborators)
    requires a != b
    ensures UuidUrl(a, t, env) != UuidUrl(b, t, env)
  {
    var n := |env.displayType(t)| + 3;
    assert UuidUrl(a, t, env)[n..] == a && UuidUrl(b, t, env)[n..] == b;
  }

  /** `uuid_from_name_and_type`: a version-5 UUID, over the URL namespace, of "<type>://<name>". */
  function UuidFromNameAndType(name: string, t: InterfaceType, env: Collaborators): (r: string)
    ensures r == env.uuidV5Url(UuidUrl(name, t, env))
  {
    env.uuidV5Url(env.displayType(t) + "://" + name)
  }

  /** The UUID of a fresh sub-record: stable (derived from name and type) or the random draw. */
  function FreshUuid(iface: Interface, stable: bool, env: Collaborators, randomUuid: string): string {
    if stable then UuidFromNameAndType(iface.Name(), iface.IfaceType(), env) else randomUuid
  }

  /** In stable mode two interfaces with the same name and type get the same UUID, whatever
      else differs between them and whatever the random draws are. */
  lemma StableUuidDependsOnNameAndType(
    a: Interface, b: Interface, env: Collaborators, randomA: string, randomB: string)
    requires a.Name() == b.Name() && a.IfaceType() == b.IfaceType()
    ensures FreshUuid(a, true, env, randomA) == FreshUuid(b, true, env, randomB)
  {
  }

  /** A sub-record built from scratch (lines 298-329): display name, UUID, and the on-wire
      type, forced to veth for an ethernet interface with veth configuration. */
  function FreshConnSetting(iface: Interface, stable: bool, env: Collaborators, randomUuid: string)
    : (r: Result<NmSettingConnection>)
    ensures r.Err? <==> IfaceTypeToNm(iface.IfaceType()).Err?
    ensures r.Err? ==> r.error.kind == NotImplementedError
    ensures r.Ok? ==>
      r.value == DefaultNmSettingConnection.(
        id := Some(ConnName(iface.Name(), iface.IfaceType())),
        uuid := Some(FreshUuid(iface, stable, env, randomUuid)),
        ifaceType := Some(if iface.HasVeth() then VethSettingName
                          else IfaceTypeToNm(iface.IfaceType()).value))
  {
    var nmType :- IfaceTypeToNm(iface.IfaceType());
    Ok(DefaultNmSettingConnection.(
      id := Some(ConnName(iface.Name(), iface.IfaceType())),
      uuid := Some(FreshUuid(iface, stable, env, randomUuid)),
      ifaceType := Some(if iface.HasVeth() then VethSettingName else nmType)))
  }

  /** The declared controller type is one the type mapper rejects. */
  predicate ControllerTypeUnsupported(iface: Interface) {
    iface.base.controllerType.Some? && iface.base.controllerType.value in UnsupportedTypes
  }

  /** The on-wire type of the declared controller type, if one is declared. */
  function NmControllerType(iface: Interface): (r: Result<Option<string>>)
    ensures r.Err? <==> ControllerTypeUnsupported(iface)
    ensures r.Err? ==> r.error.kind == NotImplementedError
    ensures r.Ok? ==> (r.value.Some? <==> iface.base.controllerType.Some?)
    ensures r.Ok? && r.value.Some? ==> IfaceTypeToNm(iface.base.controllerType.value) == Ok(r.value.value)
  {
    match iface.base.controllerType
    case None => Ok(None)
    case Some(ct) =>
      var s :- IfaceTypeToNm(ct);
      Ok(Some(s))
  }

  /** The stored controller type: an OVS bridge controller is stored as its OVS port,
      unless the interface is itself an OVS port. */
  function StoredControllerType(iface: Interface, nmCtrlType: string): string {
    if nmCtrlType == OvsBridgeSettingName && iface.IfaceType() != Other(OvsPortSettingName)
    then OvsPortSettingName
    else nmCtrlType
  }

  /** Controller linkage (lines 347-363): an empty name detaches, a name with a controller
      type attaches, anything else leaves both fields as they were. */
  function ControllerLinkage(s: NmSettingConnection, iface: Interface, nmCtrlType: Option<string>)
    : (r: NmSettingConnection)
    ensures r == s.(controller := r.controller, controllerType := r.controllerType)
    ensures iface.base.controller == Some("") ==> r.controller == None && r.controllerType == None
    ensures iface.base.controller.Some? && iface.base.controller.value != "" && nmCtrlType.Some? ==>
      && r.controller == iface.base.controller
      && r.controllerType == Some(StoredControllerType(iface, nmCtrlType.value))
    ensures (iface.base.controller.None? || (iface.base.controller != Some("") && nmCtrlType.None?)) ==>
      r == s
  {
    match iface.base.controller
    case None => s
    case Some(ctrlName) =>
      if ctrlName == "" then s.(controller := None, controllerType := None)
      else if nmCtrlType.Some? then
        s.(controller := Some(ctrlName),
           controllerType := Some(StoredControllerType(iface, nmCtrlType.value)))
      else s
  }

  /** The sub-record `gen_nm_conn_setting` starts from: the existing one, or a fresh one. */
  function StartingConnSetting(iface: Interface, nmConn: NmConnection, stable: bool, env: Collaborators, randomUuid: string)
    : Result<NmSettingConnection>
  {
    if nmConn.connection.Some? then Ok(nmConn.connection.value)
    else FreshConnSetting(iface, stable, env, randomUuid)
  }

  /** Name binding and autoconnect (lines 332-338). */
  function IdentityFields(s: NmSettingConnection, iface: Interface, env: Collaborators): NmSettingConnection {
    s.(ifaceName := Some(iface.Name()),
       autoconnect := Some(true),
       autoconnectPorts := if env.isController(iface) then Some(true) else None)
  }

  /** LLDP is copied from the interface when it declares it. */
  function LldpStep(s: NmSettingConnection, iface: Interface): (r: NmSettingConnection)
    ensures r == s.(lldp := r.lldp)
    ensures iface.base.lldp.Some? ==> r.lldp == Some(iface.base.lldp.value.enabled)
    ensures iface.base.lldp.None? ==> r == s
  {
    if iface.base.lldp.Some? then s.(lldp := Some(iface.base.lldp.value.enabled)) else s
  }

  /** MPTCP flags are converted from the interface's configuration when it declares one. */
  function MptcpStep(s: NmSettingConnection, iface: Interface, env: Collaborators): (r: Result<NmSettingConnection>)
    ensures r.Err? <==> iface.base.mptcp.Some? && env.mptcpFlags(iface.base.mptcp.value).Err?
    ensures r.Ok? ==> r.value == s.(mptcpFlags := r.value.mptcpFlags)
    ensures r.Ok? && iface.base.mptcp.Some? ==>
      r.value.mptcpFlags.Some? && env.mptcpFlags(iface.base.mptcp.value) == Ok(r.value.mptcpFlags.value)
    ensures iface.base.mptcp.None? ==> r == Ok(s)
  {
    if iface.base.mptcp.Some? then
      var flags :- env.mptcpFlags(iface.base.mptcp.value);
      Ok(s.(mptcpFlags := Some(flags)))
    else Ok(s)
  }

  /** Lines 332-369: name binding, autoconnect, controller linkage, LLDP and MPTCP applied
      to the starting sub-record. */
  function CompletedConnSetting(set0: NmSettingConnection, iface: Interface, env: Collaborators)
    : (r: Result<NmSettingConnection>)
    ensures r.Err? <==>
      ControllerTypeUnsupported(iface) || (iface.base.mptcp.Some? && env.mptcpFlags(iface.base.mptcp.value).Err?)
    // Identity (id, UUID, type) is kept; name binding and autoconnect are set.
    ensures r.Ok? ==>
      r.value == set0.(
        ifaceName := Some(iface.Name()),
        autoconnect := Some(true),
        autoconnectPorts := if env.isController(iface) then Some(true) else None,
        controller := r.value.controller, controllerType := r.value.controllerType,
        lldp := r.value.lldp, mptcpFlags := r.value.mptcpFlags)
    // LLDP and MPTCP: copied through when declared, kept otherwise.
    ensures r.Ok? ==>
      r.value.lldp == if iface.base.lldp.Some? then Some(iface.base.lldp.value.enabled) else set0.lldp
    ensures r.Ok? && iface.base.mptcp.Some? ==>
      r.value.mptcpFlags.Some? && env.mptcpFlags(iface.base.mptcp.value) == Ok(r.value.mptcpFlags.value)
    ensures r.Ok? && iface.base.mptcp.None? ==> r.value.mptcpFlags == set0.mptcpFlags
  {
    var nmCtrlType :- NmControllerType(iface);
    var linked := ControllerLinkage(IdentityFields(set0, iface, env), iface, nmCtrlType);
    MptcpStep(LldpStep(linked, iface), iface, env)
  }

  /** Controller linkage in the completed sub-record: an empty name detaches, a name with
      a controller type attaches, anything else keeps the starting linkage. */
  lemma CompletedLinkage(set0: NmSettingConnection, iface: Interface, env: Collaborators)
    requires CompletedConnSetting(set0, iface, env).Ok?
    ensures var c := CompletedConnSetting(set0, iface, env).value;
      var ctrl := iface.base.controller;
      && (ctrl == Some("") ==> c.controller == None && c.controllerType == None)
      && (ctrl.Some? && ctrl != Some("") && iface.base.controllerType.Some? ==>
            && c.controller == ctrl
            && c.controllerType == Some(StoredControllerType(
                 iface, IfaceTypeToNm(iface.base.controllerType.value).value)))
      && (ctrl.None? || (ctrl != Some("") && iface.base.controllerType.None?) ==>
            c.controller == set0.controller && c.controllerType == set0.controllerType)
  {
    var linked := ControllerLinkage(IdentityFields(set0, iface, env), iface, NmControllerType(iface).value);
    assert CompletedConnSetting(set0, iface, env) == MptcpStep(LldpStep(linked, iface), iface, env);
  }

  /** The profile after `gen_nm_conn_setting`: only its `connection` sub-record changes. */
  function ConnSetting(iface: Interface, nmConn: NmConnection, stable: bool, env: Collaborators, randomUuid: string)
    : (r: Result<NmConnection>)
    // Errors: an unmappable own type (fresh sub-record only), an unmappable controller
    // type (always), an MPTCP configuration the collaborator rejects.
    ensures r.Err? <==>
      || (nmConn.connection.None? && IfaceTypeToNm(iface.IfaceType()).Err?)
      || ControllerTypeUnsupported(iface)
      || (iface.base.mptcp.Some? && env.mptcpFlags(iface.base.mptcp.value).Err?)
    // Nothing outside the sub-record changes.
    ensures r.Ok? ==> r.value == nmConn.(connection := r.value.connection) && r.value.connection.Some?
    // Name binding and autoconnect are always set; ports autoconnect only on a controller.
    ensures r.Ok? ==>
      var c := r.value.connection.value;
      && c.ifaceName == Some(iface.Name())
      && c.autoconnect == Some(true)
      && c.autoconnectPorts == (if env.isController(iface) then Some(true) else None)
    // An existing sub-record keeps its identity.
    ensures r.Ok? && nmConn.connection.Some? ==>
      var (c, c0) := (r.value.connection.value, nmConn.connection.value);
      c.id == c0.id && c.uuid == c0.uuid && c.ifaceType == c0.ifaceType
    // A fresh one gets a derived name, a stable or random UUID and the mapped (or veth) type.
    ensures r.Ok? && nmConn.connection.None? ==>
      var c := r.value.connection.value;
      && c.id == Some(ConnName(iface.Name(), iface.IfaceType()))
      && c.uuid == Some(FreshUuid(iface, stable, env, randomUuid))
      && c.ifaceType == Some(if iface.HasVeth() then VethSettingName
                             else IfaceTypeToNm(iface.IfaceType()).value)
    // LLDP and MPTCP are copied through when declared; otherwise an existing sub-record
    // keeps its own and a fresh one has none.
    ensures r.Ok? ==>
      var c := r.value.connection.value;
      var prior := if nmConn.connection.Some? then nmConn.connection.value else DefaultNmSettingConnection;
      && c.lldp == (if iface.base.lldp.Some? then Some(iface.base.lldp.value.enabled) else prior.lldp)
      && (iface.base.mptcp.None? ==> c.mptcpFlags == prior.mptcpFlags)
      && (iface.base.mptcp.Some? ==>
            c.mptcpFlags.Some? && env.mptcpFlags(iface.base.mptcp.value) == Ok(c.mptcpFlags.value))
  {
    var set0 :- StartingConnSetting(iface, nmConn, stable, env, randomUuid);
    var set4 :- CompletedConnSetting(set0, iface, env);
    Ok(nmConn.(connection := Some(set4)))
  }

  /** Controller linkage as seen in the finished sub-record. */
  lemma ConnSettingController(iface: Interface, nmConn: NmConnection, stable: bool, env: Collaborators, randomUuid: string)
    requires ConnSetting(iface, nmConn, stable, env, randomUuid).Ok?
    ensures var c := ConnSetting(iface, nmConn, stable, env, randomUuid).value.connection.value;
      var c0 := StartingConnSetting(iface, nmConn, stable, env, randomUuid).value;
      var ctrl := iface.base.controller;
      && (ctrl == Some("") ==> c.controller == None && c.controllerType == None)
      && (ctrl.Some? && ctrl != Some("") && iface.base.controllerType.Some? ==>
            && c.controller == ctrl
            && c.controllerType == Some(StoredControllerType(
                 iface, IfaceTypeToNm(iface.base.controllerType.value).value)))
      && (ctrl.None? || (ctrl != Some("") && iface.base.controllerType.None?) ==>
            c.controller == c0.controller && c.controllerType == c0.controllerType)
  {
  }

  /** An OVS bridge controller is stored as "ovs-port" for every interface that is not
      itself an OVS port. */
  lemma OvsBridgeControllerStoredAsPort(iface: Interface, nmConn: NmConnection, stable: bool, env: Collaborators, randomUuid: string)
    requires iface.base.controller.Some? && iface.base.controller != Some("")
    requires iface.base.controllerType == Some(OvsBridge)
    requires iface.IfaceType() != Other(OvsPortSettingName)
    requires ConnSetting(iface, nmConn, stable, env, randomUuid).Ok?
    ensures ConnSetting(iface, nmConn, stable, env, randomUuid).value.ControllerType()
      == Some(OvsPortSettingName)
  {
  }

  /** An unmappable controller type is a NotImplementedError even when the controller name
      is empty or absent. */
  lemma UnmappableControllerTypeFails(iface: Interface, nmConn: NmConnection, stable: bool, env: Collaborators, randomUuid: string)
    requires iface.base.controllerType.Some? && iface.base.controllerType.value in UnsupportedTypes
    ensures ConnSetting(iface, nmConn, stable, env, randomUuid) == Err(NmstateError(NotImplementedError))
  {
  }

  /** In stable mode the result does not depend on the random draw. */
  lemma StableIgnoresRandom(iface: Interface, nmConn: NmConnection, env: Collaborators, randomA: string, randomB: string)
    ensures ConnSetting(iface, nmConn, true, env, randomA) == ConnSetting(iface, nmConn, true, env, randomB)
  {
  }

  /** Lines 298-329: a fresh sub-record, built field by field. */
  method NewConnSetting(iface: Interface, stable: bool, env: Collaborators, randomUuid: string)
    returns (r: Result<NmSettingConnection>)
    ensures r == FreshConnSetting(iface, stable, env, randomUuid)
  {
    var newSet := DefaultNmSettingConnection;
    newSet := newSet.(id := Some(ConnName(iface.Name(), iface.IfaceType())));
    newSet := newSet.(uuid := Some(
      if stable then UuidFromNameAndType(iface.Name(), iface.IfaceType(), env) else randomUuid));
    var nmType := IfaceTypeToNm(iface.IfaceType());
    if nmType.Err? {
      return Err(nmType.error);
    }
    newSet := newSet.(ifaceType := Some(nmType.value));
    if iface.EthernetIface? && iface.veth.Some? {
      newSet := newSet.(ifaceType := Some(VethSettingName));
    }
    r := Ok(newSet);
  }

  /** Lines 347-363: detach on an empty controller name, attach when a controller type
      is declared, otherwise leave the linkage alone. */
  method ApplyControllerLinkage(s: NmSettingConnection, iface: Interface, nmCtrlType: Option<string>)
    returns (r: NmSettingConnection)
    ensures r == ControllerLinkage(s, iface, nmCtrlType)
  {
    r := s;
    var ctrlName := iface.base.controller;
    if ctrlName.Some? {
      if ctrlName.value == "" {
        r := r.(controller := None);
        r := r.(controllerType := None);
      } else if nmCtrlType.Some? {
        r := r.(controller := Some(ctrlName.value));
        r := r.(controllerType :=
          if nmCtrlType.value == OvsBridgeSettingName && iface.IfaceType() != Other(OvsPortSettingName)
          then Some(OvsPortSettingName)
          else Some(nmCtrlType.value));
      }
    }
  }

  /** `gen_nm_conn_setting`: fills the sub-record field by field and stores it back into
      the profile; on an error the profile is not updated. */
  method GenNmConnSetting(iface: Interface, nmConn: NmConnection, stable: bool, env: Collaborators, randomUuid: string)
    returns (r: Result<NmConnection>)
    ensures r == ConnSetting(iface, nmConn, stable, env, randomUuid)
  {
    var nmConnSet: NmSettingConnection;
    if nmConn.connection.Some? {
      nmConnSet := nmConn.connection.value;
    } else {
      var built := NewConnSetting(iface, stable, env, randomUuid);
      if built.Err? {
        return Err(built.error);
      }
      nmConnSet := built.value;
    }
    assert StartingConnSetting(iface, nmConn, stable, env, randomUuid) == Ok(nmConnSet);
    var completed := FillConnSetting(nmConnSet, iface, env);
    if completed.Err? {
      return Err(completed.error);
    }
    r := Ok(nmConn.(connection := Some(completed.value)));
  }

  /** Lines 332-369: the in-place updates of the sub-record after it is chosen. */
  method FillConnSetting(set0: NmSettingConnection, iface: Interface, env: Collaborators)
    returns (r: Result<NmSettingConnection>)
    ensures r == CompletedConnSetting(set0, iface, env)
  {
    var nmConnSet := set0;
    nmConnSet := nmConnSet.(ifaceName := Some(iface.Name()));
    nmConnSet := nmConnSet.(autoconnect := Some(true));
    nmConnSet := nmConnSet.(autoconnectPorts := if env.isController(iface) then Some(true) else None);
    ghost var set1 := nmConnSet;
    assert set1 == IdentityFields(set0, iface, env);

    var nmCtrlType := NmControllerType(iface);
    if nmCtrlType.Err? {
      return Err(nmCtrlType.error);
    }
    nmConnSet := ApplyControllerLinkage(nmConnSet, iface, nmCtrlType.value);
    if iface.base.lldp.Some? {
      nmConnSet := nmConnSet.(lldp := Some(iface.base.lldp.value.enabled));
    }
    ghost var set3 := nmConnSet;
    if iface.base.mptcp.Some? {
      var flags := env.mptcpFlags(iface.base.mptcp.value);
      if flags.Err? {
        return Err(flags.error);
      }
      nmConnSet := nmConnSet.(mptcpFlags := Some(flags.value));
    }
    assert MptcpStep(set3, iface, env) == Ok(nmConnSet);
    r := Ok(nmConnSet);
  }
}
