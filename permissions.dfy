/**
 * The coarse permission mask of src/permissions.rs. The mask travels in
 * the `Permissions` header as a decimal `i32`; the model keeps its 32-bit
 * two's-complement pattern, on which `&` and `==` act exactly as on the
 * `i32`.
 */
module Permissions {

  type Mask = bv32

  /** The `Permissions` enum: one feature area per bit, and `Admin` as 0. */
  datatype Permission = Admin | Users | Metrics | Cloud | Portainer

  /** The enum's discriminants (`as i32`). */
  function Value(p: Permission): (v: Mask)
    ensures v == 0 <==> p == Admin
    ensures v < 16
  {
    match p
    case Admin => 0
    case Users => 1
    case Metrics => 2
    case Cloud => 4
    case Portainer => 8
  }

  /** Distinct permissions share no bit, so each feature area is checked on its own. */
  lemma FeatureBitsDisjoint(p: Permission, q: Permission)
    requires p != q
    ensures Value(p) & Value(q) == 0
  {
  }

  /**
   * `has_permissions`: the mask holds every requested bit, or the mask
   * is exactly `Admin`.
   */
  predicate HasPermissions(mask: Mask, requested: Mask): (granted: bool)
    ensures granted <==> mask == Value(Admin) || requested & !mask == 0
  {
    mask & requested == requested || mask == Value(Admin)
  }

  /** The `Admin` mask passes every check. */
  lemma AdminMaskPassesAll(requested: Mask)
    ensures HasPermissions(Value(Admin), requested)
  {
  }

  /** Requesting the `Admin` value (no bits) passes for every mask. */
  lemma AdminRequestAlwaysPasses(mask: Mask)
    ensures HasPermissions(mask, Value(Admin))
  {
  }

  /** For a non-admin mask, a request for two sets of bits passes iff each does. */
  lemma CombinedRequest(mask: Mask, p1: Mask, p2: Mask)
    requires mask != Value(Admin)
    ensures HasPermissions(mask, p1 | p2) <==> HasPermissions(mask, p1) && HasPermissions(mask, p2)
  {
    if mask & (p1 | p2) == p1 | p2 {
      HoldsPart(mask, p1, p2);
      assert p1 | p2 == p2 | p1;
      HoldsPart(mask, p2, p1);
    }
    if mask & p1 == p1 && mask & p2 == p2 {
      HoldsBoth(mask, p1, p2);
    }
  }

  /** Holding a combined request means holding its first part. */
  lemma HoldsPart(mask: Mask, p1: Mask, p2: Mask)
    requires mask & (p1 | p2) == p1 | p2
    ensures mask & p1 == p1
  {
  }

  /** Holding both parts means holding the combined request. */
  lemma HoldsBoth(mask: Mask, p1: Mask, p2: Mask)
    requires mask & p1 == p1 && mask & p2 == p2
    ensures mask & (p1 | p2) == p1 | p2
  {
  }

  /** For a non-admin mask, holding more bits never turns a pass into a failure. */
  lemma MoreBitsKeepPassing(mask: Mask, extra: Mask, requested: Mask)
    requires mask != Value(Admin) && HasPermissions(mask, requested)
    ensures HasPermissions(mask | extra, requested)
  {
  }

  /**
   * The exception for the `Admin` mask: adding the `Metrics` bit to the
   * `Admin` mask loses `Cloud`.
   */
  lemma AdminMaskNotMonotone()
    ensures HasPermissions(Value(Admin), Value(Cloud))
    ensures !HasPermissions(Value(Admin) | Value(Metrics), Value(Cloud))
  {
  }

  /** Mask 4 may use the cloud but not the metrics; mask 6 may use both. */
  lemma MaskExamples()
    ensures HasPermissions(4, Value(Cloud)) && !HasPermissions(4, Value(Metrics))
    ensures HasPermissions(6, Value(Cloud)) && HasPermissions(6, Value(Metrics))
  {
  }
}
