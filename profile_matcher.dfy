/** The profile matcher: picks the existing profile to reuse for an interface. */
module ProfileMatcher {
  import opened Types
  import opened TypeMapper

  /** A profile is a candidate for (name, on-wire type) when it binds that interface name
      and has that type; a veth profile also stands in for a requested wired type. */
  predicate IsCandidate(c: NmConnection, name: string, nmType: string) {
    && c.IfaceName() == Some(name)
    && (|| c.IfaceType() == Some(nmType)
        || (nmType == WiredSettingName && c.IfaceType() == Some(VethSettingName)))
  }

  /** The profile's UUID is among the active connections' UUIDs. */
  predicate IsActive(c: NmConnection, active: seq<string>) {
    c.Uuid().Some? && c.Uuid().value in active
  }

  predicate IsActiveCandidate(c: NmConnection, name: string, nmType: string, active: seq<string>) {
    IsCandidate(c, name, nmType) && IsActive(c, active)
  }

  /** The index of the first active candidate, if there is one. */
  function FirstActive(conns: seq<NmConnection>, name: string, nmType: string, active: seq<string>)
    : (r: Option<nat>)
    ensures r.Some? ==> r.value < |conns| && IsActiveCandidate(conns[r.value], name, nmType, active)
    ensures r.Some? ==>
      forall j :: 0 <= j < r.value ==> !IsActiveCandidate(conns[j], name, nmType, active)
    ensures r.None? <==>
      forall j :: 0 <= j < |conns| ==> !IsActiveCandidate(conns[j], name, nmType, active)
    decreases |conns|
  {
    if conns == [] then None
    else
      var p := FirstActive(conns[..|conns| - 1], name, nmType, active);
      if p.Some? then p
      else if IsActiveCandidate(conns[|conns| - 1], name, nmType, active) then Some(|conns| - 1)
      else None
  }

  /** The index of the last candidate, if there is one. */
  function LastCandidate(conns: seq<NmConnection>, name: string, nmType: string): (r: Option<nat>)
    ensures r.Some? ==> r.value < |conns| && IsCandidate(conns[r.value], name, nmType)
    ensures r.Some? ==> forall j :: r.value < j < |conns| ==> !IsCandidate(conns[j], name, nmType)
    ensures r.None? <==> forall j :: 0 <= j < |conns| ==> !IsCandidate(conns[j], name, nmType)
    decreases |conns|
  {
    if conns == [] then None
    else if IsCandidate(conns[|conns| - 1], name, nmType) then Some(|conns| - 1)
    else LastCandidate(conns[..|conns| - 1], name, nmType)
  }

  /** The profile to reuse: the first active candidate, otherwise the last candidate;
      nothing when the requested type has no on-wire type. */
  function ExistProfile(conns: seq<NmConnection>, name: string, t: InterfaceType, active: seq<string>)
    : (r: Option<nat>)
    ensures r.Some? ==> r.value < |conns| && IfaceTypeToNm(t).Ok?
    ensures r.Some? ==> IsCandidate(conns[r.value], name, IfaceTypeToNm(t).value)
    ensures r.None? <==>
      (|| IfaceTypeToNm(t).Err?
       || forall j :: 0 <= j < |conns| ==> !IsCandidate(conns[j], name, IfaceTypeToNm(t).value))
  {
    match IfaceTypeToNm(t)
    case Err(_) => None
    case Ok(nmType) =>
      var p := FirstActive(conns, name, nmType, active);
      if p.Some? then p else LastCandidate(conns, name, nmType)
  }

  /** If no candidate before `i` is active and the one at `i` is, `i` is the first
      active candidate of the whole sequence. */
  lemma FirstActiveAt(conns: seq<NmConnection>, i: nat, name: string, nmType: string, active: seq<string>)
    requires i < |conns|
    requires FirstActive(conns[..i], name, nmType, active).None?
    requires IsActiveCandidate(conns[i], name, nmType, active)
    ensures FirstActive(conns, name, nmType, active) == Some(i)
  {
  }

  /** How the two scans extend by one element. */
  lemma PrefixStep(conns: seq<NmConnection>, i: nat, name: string, nmType: string, active: seq<string>)
    requires i < |conns|
    ensures FirstActive(conns[..i + 1], name, nmType, active)
      == var p := FirstActive(conns[..i], name, nmType, active);
         if p.Some? then p
         else if IsActiveCandidate(conns[i], name, nmType, active) then Some(i) else None
    ensures LastCandidate(conns[..i + 1], name, nmType)
      == if IsCandidate(conns[i], name, nmType) then Some(i)
         else LastCandidate(conns[..i], name, nmType)
  {
    assert conns[..i + 1][..i] == conns[..i] && conns[..i + 1][i] == conns[i];
  }

  /** The last index recorded so far. */
  function LastFound(found: seq<nat>): Option<nat> {
    if found == [] then None else Some(found[|found| - 1])
  }

  /** One step of the scan past a profile that is not an active candidate. */
  lemma ScanStep(conns: seq<NmConnection>, i: nat, name: string, nmType: string, active: seq<string>, found: seq<nat>)
    requires i < |conns|
    requires FirstActive(conns[..i], name, nmType, active).None?
    requires LastCandidate(conns[..i], name, nmType) == LastFound(found)
    requires !IsActiveCandidate(conns[i], name, nmType, active)
    ensures FirstActive(conns[..i + 1], name, nmType, active).None?
    ensures LastCandidate(conns[..i + 1], name, nmType)
      == LastFound(if IsCandidate(conns[i], name, nmType) then found + [i] else found)
  {
    PrefixStep(conns, i, name, nmType, active);
  }

  /** `get_exist_profile`: the same scan as the source, returning an index into `conns`. */
  method GetExistProfile(conns: seq<NmConnection>, name: string, t: InterfaceType, active: seq<string>)
    returns (r: Option<nat>)
    ensures r == ExistProfile(conns, name, t, active)
  {
    ghost var mappedType := IfaceTypeToNm(t);
    var found: seq<nat> := [];
    for i := 0 to |conns|
      invariant mappedType.Err? ==> found == []
      invariant mappedType.Ok? ==> FirstActive(conns[..i], name, mappedType.value, active).None?
      invariant mappedType.Ok? ==> LastCandidate(conns[..i], name, mappedType.value) == LastFound(found)
    {
      var mapped := IfaceTypeToNm(t);
      if mapped.Err? {
        continue;
      }
      var nmType := mapped.value;
      var c := conns[i];
      if IsCandidate(c, name, nmType) {
        var uuid := c.Uuid();
        if uuid.Some? && uuid.value in active {
          FirstActiveAt(conns, i, name, nmType, active);
          return Some(i);
        }
        ScanStep(conns, i, name, nmType, active, found);
        found := found + [i];
      } else {
        ScanStep(conns, i, name, nmType, active, found);
      }
    }
    assert conns[..|conns|] == conns;
    if found == [] {
      r := None;
    } else {
      r := Some(found[|found| - 1]);
      // `pop()` also removes the returned entry; the shortened list is not read again.
      found := found[..|found| - 1];
    }
  }

  /** An active candidate wins over every inactive one: the result is active and no
      earlier candidate is active. */
  lemma PrefersActive(conns: seq<NmConnection>, name: string, t: InterfaceType, active: seq<string>, k: nat)
    requires k < |conns| && IfaceTypeToNm(t).Ok?
    requires IsActiveCandidate(conns[k], name, IfaceTypeToNm(t).value, active)
    ensures ExistProfile(conns, name, t, active).Some?
    ensures var r := ExistProfile(conns, name, t, active).value;
      && r <= k
      && IsActiveCandidate(conns[r], name, IfaceTypeToNm(t).value, active)
      && forall j :: 0 <= j < r ==> !IsActiveCandidate(conns[j], name, IfaceTypeToNm(t).value, active)
  {
  }

  /** Without an active candidate the last candidate in input order is returned. */
  lemma FallsBackToLast(conns: seq<NmConnection>, name: string, t: InterfaceType, active: seq<string>)
    requires IfaceTypeToNm(t).Ok?
    requires forall j :: 0 <= j < |conns| ==>
      !IsActiveCandidate(conns[j], name, IfaceTypeToNm(t).value, active)
    ensures ExistProfile(conns, name, t, active) == LastCandidate(conns, name, IfaceTypeToNm(t).value)
  {
  }

  /** What a match looks like on the wire: the requested name, and the requested type or
      (for a wired request) veth. */
  lemma MatchedProfileFields(conns: seq<NmConnection>, name: string, t: InterfaceType, active: seq<string>)
    requires ExistProfile(conns, name, t, active).Some?
    ensures var c := conns[ExistProfile(conns, name, t, active).value];
      && c.connection.Some? && c.connection.value.ifaceName == Some(name)
      && (|| c.connection.value.ifaceType == IfaceTypeToNm(t).ToOption()
          || (IfaceTypeToNm(t) == Ok(WiredSettingName)
              && c.connection.value.ifaceType == Some(VethSettingName)))
  {
  }

  /** The ethernet/veth equivalence is one-way: a Veth request only ever matches a veth
      profile, never an "802-3-ethernet" one. */
  lemma VethRequestMatchesOnlyVeth(conns: seq<NmConnection>, name: string, active: seq<string>)
    requires ExistProfile(conns, name, Veth, active).Some?
    ensures conns[ExistProfile(conns, name, Veth, active).value].IfaceType() == Some(VethSettingName)
  {
  }

  /** An Ethernet request treats a veth profile of the same name as a candidate, so a list
      holding one always yields a match. */
  lemma EthernetRequestMatchesVeth(conns: seq<NmConnection>, i: nat, name: string, active: seq<string>)
    requires i < |conns|
    requires conns[i].IfaceName() == Some(name) && conns[i].IfaceType() == Some(VethSettingName)
    ensures IsCandidate(conns[i], name, IfaceTypeToNm(Ethernet).value)
    ensures ExistProfile(conns, name, Ethernet, active).Some?
  {
  }

  /** Of two candidates, one active and one not, the active one is chosen whichever
      comes first. */
  lemma ActiveWinsInEitherOrder(a: NmConnection, b: NmConnection, name: string, t: InterfaceType, active: seq<string>)
    requires IfaceTypeToNm(t).Ok?
    requires IsActiveCandidate(a, name, IfaceTypeToNm(t).value, active)
    requires IsCandidate(b, name, IfaceTypeToNm(t).value) && !IsActive(b, active)
    ensures ExistProfile([a, b], name, t, active) == Some(0)
    ensures ExistProfile([b, a], name, t, active) == Some(1)
  {
    assert [a, b][0] == a && [b, a][1] == a && [b, a][0] == b;
  }

  /** Of several inactive candidates the last one in input order is chosen. */
  lemma LastInactiveWins(a: NmConnection, b: NmConnection, name: string, t: InterfaceType, active: seq<string>)
    requires IfaceTypeToNm(t).Ok?
    requires IsCandidate(a, name, IfaceTypeToNm(t).value) && !IsActive(a, active)
    requires IsCandidate(b, name, IfaceTypeToNm(t).value) && !IsActive(b, active)
    ensures ExistProfile([a, b], name, t, active) == Some(1)
  {
  }
}
