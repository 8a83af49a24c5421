/** The IP revert planner: the extra adjustments `generate_revert_extra` makes to the
    base attributes of an auto-generated revert state.  Line numbers in this module
    refer to rust/src/lib/revert/ifaces/base.rs. */
module Revert {
  import opened Types

  /** What an in-place sanitise call leaves behind: the value after the call and the
      call's outcome. */
  datatype Sanitized<T> = Sanitized(after: T, outcome: Result<()>)

  /** The two operations the planner uses on one IP family's configuration. */
  datatype IpOps<!T> = IpOps(isAuto: T -> bool, sanitize: T -> Sanitized<T>)

  /** The collaborators: whether an interface can carry IP at all, and the IPv4 and IPv6
      operations. */
  datatype RevertOps = RevertOps(
    canHaveIp: BaseInterface -> bool,
    v4: IpOps<InterfaceIpv4>,
    v6: IpOps<InterfaceIpv6>)

  /** Lines 11-14: the desired state cannot have IP but the revert state can. */
  predicate WholesaleRestore(revert: BaseInterface, desired: BaseInterface, ops: RevertOps) {
    !ops.canHaveIp(desired) && ops.canHaveIp(revert)
  }

  /** Lines 19-20 and 25-26: the desired family is automatic while the current one is
      static. */
  predicate FlipsToAuto<T>(desired: Option<T>, current: Option<T>, isAuto: T -> bool) {
    desired.Some? && isAuto(desired.value) && current.Some? && !isAuto(current.value)
  }

  /** One family before sanitising: the current value when either rule fires, the revert
      state's own value otherwise. */
  function Restored<T>(own: Option<T>, wholesale: bool, desired: Option<T>, current: Option<T>, isAuto: T -> bool)
    : (r: Option<T>)
    ensures wholesale || FlipsToAuto(desired, current, isAuto) ==> r == current
    ensures !wholesale && !FlipsToAuto(desired, current, isAuto) ==> r == own
  {
    var afterWholesale := if wholesale then current else own;
    if FlipsToAuto(desired, current, isAuto) then current else afterWholesale
  }

  /** Lines 30-31: a present family is sanitised in place; an absent one is left alone.
      The outcome is discarded. */
  function SanitizeIp<T>(ip: Option<T>, ops: IpOps<T>): (r: Option<T>)
    ensures r.Some? <==> ip.Some?
  {
    if ip.Some? then Some(ops.sanitize(ip.value).after) else None
  }

  /** The revert state after `generate_revert_extra`: only its two IP families change. */
  function RevertExtra(revert: BaseInterface, desired: BaseInterface, current: BaseInterface, ops: RevertOps)
    : (r: BaseInterface)
    ensures r == revert.(ipv4 := r.ipv4, ipv6 := r.ipv6)
    ensures r.ipv4.Some? <==> (if WholesaleRestore(revert, desired, ops) || FlipsToAuto(desired.ipv4, current.ipv4, ops.v4.isAuto)
                               then current.ipv4.Some? else revert.ipv4.Some?)
    ensures r.ipv6.Some? <==> (if WholesaleRestore(revert, desired, ops) || FlipsToAuto(desired.ipv6, current.ipv6, ops.v6.isAuto)
                               then current.ipv6.Some? else revert.ipv6.Some?)
  {
    var wholesale := WholesaleRestore(revert, desired, ops);
    revert.(
      ipv4 := SanitizeIp(Restored(revert.ipv4, wholesale, desired.ipv4, current.ipv4, ops.v4.isAuto), ops.v4),
      ipv6 := SanitizeIp(Restored(revert.ipv6, wholesale, desired.ipv6, current.ipv6, ops.v6.isAuto), ops.v6))
  }

  /** The revert state `generate_revert_extra` is called on (`&mut self`). */
  class RevertState {
    var base: BaseInterface

    constructor(base: BaseInterface)
      ensures this.base == base
    {
      this.base := base;
    }

    /** `generate_revert_extra`: the two restore rules, then the best-effort sanitise. */
    method GenerateRevertExtra(desired: BaseInterface, current: BaseInterface, ops: RevertOps)
      modifies this
      ensures base == RevertExtra(old(base), desired, current, ops)
    {
      if !ops.canHaveIp(desired) && ops.canHaveIp(base) {
        base := base.(ipv4 := current.ipv4);
        base := base.(ipv6 := current.ipv6);
      }
      if desired.ipv4.Some? && ops.v4.isAuto(desired.ipv4.value)
        && current.ipv4.Some? && !ops.v4.isAuto(current.ipv4.value)
      {
        base := base.(ipv4 := current.ipv4);
      }
      if desired.ipv6.Some? && ops.v6.isAuto(desired.ipv6.value)
        && current.ipv6.Some? && !ops.v6.isAuto(current.ipv6.value)
      {
        base := base.(ipv6 := current.ipv6);
      }
      if base.ipv4.Some? {
        var sanitized := ops.v4.sanitize(base.ipv4.value);
        base := base.(ipv4 := Some(sanitized.after));
      }
      if base.ipv6.Some? {
        var sanitized := ops.v6.sanitize(base.ipv6.value);
        base := base.(ipv6 := Some(sanitized.after));
      }
    }
  }

  /** When the desired state cannot have IP but the revert state can, both families are
      the current ones, sanitised, whatever the flip rules say. */
  lemma WholesaleRestoresCurrent(revert: BaseInterface, desired: BaseInterface, current: BaseInterface, ops: RevertOps)
    requires WholesaleRestore(revert, desired, ops)
    ensures RevertExtra(revert, desired, current, ops).ipv4 == SanitizeIp(current.ipv4, ops.v4)
    ensures RevertExtra(revert, desired, current, ops).ipv6 == SanitizeIp(current.ipv6, ops.v6)
  {
  }

  /** A static-to-automatic switch of IPv4 restores the current IPv4 configuration. */
  lemma Ipv4FlipRestoresCurrent(revert: BaseInterface, desired: BaseInterface, current: BaseInterface, ops: RevertOps)
    requires FlipsToAuto(desired.ipv4, current.ipv4, ops.v4.isAuto)
    ensures RevertExtra(revert, desired, current, ops).ipv4 == SanitizeIp(current.ipv4, ops.v4)
    ensures RevertExtra(revert, desired, current, ops).ipv4.Some?
  {
  }

  /** The same rule for IPv6. */
  lemma Ipv6FlipRestoresCurrent(revert: BaseInterface, desired: BaseInterface, current: BaseInterface, ops: RevertOps)
    requires FlipsToAuto(desired.ipv6, current.ipv6, ops.v6.isAuto)
    ensures RevertExtra(revert, desired, current, ops).ipv6 == SanitizeIp(current.ipv6, ops.v6)
    ensures RevertExtra(revert, desired, current, ops).ipv6.Some?
  {
  }

  /** The IPv4 outcome depends on the IPv6 attributes only through the wholesale rule: two
      calls that agree on IPv4 and on that rule agree on the resulting IPv4, however their
      IPv6 attributes differ. */
  lemma Ipv4IndependentOfIpv6(
    revert: BaseInterface, desired: BaseInterface, current: BaseInterface,
    revert': BaseInterface, desired': BaseInterface, current': BaseInterface, ops: RevertOps)
    requires revert.ipv4 == revert'.ipv4 && desired.ipv4 == desired'.ipv4 && current.ipv4 == current'.ipv4
    requires WholesaleRestore(revert, desired, ops) == WholesaleRestore(revert', desired', ops)
    ensures RevertExtra(revert, desired, current, ops).ipv4 == RevertExtra(revert', desired', current', ops).ipv4
  {
  }

  /** The IPv6 outcome depends on the IPv4 attributes only through the wholesale rule. */
  lemma Ipv6IndependentOfIpv4(
    revert: BaseInterface, desired: BaseInterface, current: BaseInterface,
    revert': BaseInterface, desired': BaseInterface, current': BaseInterface, ops: RevertOps)
    requires revert.ipv6 == revert'.ipv6 && desired.ipv6 == desired'.ipv6 && current.ipv6 == current'.ipv6
    requires WholesaleRestore(revert, desired, ops) == WholesaleRestore(revert', desired', ops)
    ensures RevertExtra(revert, desired, current, ops).ipv6 == RevertExtra(revert', desired', current', ops).ipv6
  {
  }

  /** When no rule fires a family keeps its own value, sanitised; an absent family stays
      absent. */
  lemma NoRuleKeepsOwn(revert: BaseInterface, desired: BaseInterface, current: BaseInterface, ops: RevertOps)
    requires !WholesaleRestore(revert, desired, ops)
    ensures !FlipsToAuto(desired.ipv4, current.ipv4, ops.v4.isAuto) ==>
      RevertExtra(revert, desired, current, ops).ipv4 == SanitizeIp(revert.ipv4, ops.v4)
    ensures !FlipsToAuto(desired.ipv6, current.ipv6, ops.v6.isAuto) ==>
      RevertExtra(revert, desired, current, ops).ipv6 == SanitizeIp(revert.ipv6, ops.v6)
    ensures !FlipsToAuto(desired.ipv4, current.ipv4, ops.v4.isAuto) && revert.ipv4.None? ==>
      RevertExtra(revert, desired, current, ops).ipv4.None?
    ensures !FlipsToAuto(desired.ipv6, current.ipv6, ops.v6.isAuto) && revert.ipv6.None? ==>
      RevertExtra(revert, desired, current, ops).ipv6.None?
  {
  }

  /** A failing sanitise call cannot make the planner fail or change its result: two sets
      of operations that leave the same values behind give the same revert state, whatever
      outcomes they report. */
  lemma SanitizeOutcomeIgnored(
    revert: BaseInterface, desired: BaseInterface, current: BaseInterface, ops: RevertOps, ops': RevertOps)
    requires ops.canHaveIp == ops'.canHaveIp && ops.v4.isAuto == ops'.v4.isAuto && ops.v6.isAuto == ops'.v6.isAuto
    requires forall x :: ops.v4.sanitize(x).after == ops'.v4.sanitize(x).after
    requires forall x :: ops.v6.sanitize(x).after == ops'.v6.sanitize(x).after
    ensures RevertExtra(revert, desired, current, ops) == RevertExtra(revert, desired, current, ops')
  {
  }

  /** With an idempotent sanitise step, planning twice against the same desired and
      current states gives the same revert state as planning once: the rules that fired
      fire again and copy the same current values. */
  lemma RevertExtraIdempotent(
    revert: BaseInterface, desired: BaseInterface, current: BaseInterface, ops: RevertOps)
    requires forall x :: ops.v4.sanitize(ops.v4.sanitize(x).after).after == ops.v4.sanitize(x).after
    requires forall x :: ops.v6.sanitize(ops.v6.sanitize(x).after).after == ops.v6.sanitize(x).after
    requires ops.canHaveIp(RevertExtra(revert, desired, current, ops)) == ops.canHaveIp(revert)
    ensures var once := RevertExtra(revert, desired, current, ops);
      RevertExtra(once, desired, current, ops) == once
  {
  }
}
