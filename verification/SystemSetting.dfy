/** The asset deletion policy and the bounds every stored value is forced into. */
module SystemSetting {
  import opened Wrappers

  /** The stored JSON value; a missing field keeps its default. */
  datatype StoredPolicy = StoredPolicy(
    recentDeletedRetentionDays: Option<int>,
    tombstoneRetentionDays: Option<int>,
    cleanupBatchLimit: Option<int>,
    autoCleanupEnabled: Option<bool>)

  function Clamp(n: int, low: int, high: int): int {
    if n < low then low else if n > high then high else n
  }

  function GetOr<T>(o: Option<T>, default: T): T {
    if o.Some? then o.value else default
  }

  /** `n` is `v` when in range, and otherwise the bound `v` is beyond. */
  ghost predicate Forced(v: int, low: int, high: int, n: int) {
    (low <= v <= high ==> n == v) && (v < low ==> n == low) && (v > high ==> n == high)
  }

  /** The retention in days that a stored setting amounts to: ninety unless stored, and forced into range. */
  function RetentionDays(stored: Option<StoredPolicy>): (days: int)
    ensures 7 <= days <= 3650
    ensures stored.None? || stored.value.recentDeletedRetentionDays.None? ==> days == 90
    ensures stored.Some? && stored.value.recentDeletedRetentionDays.Some? ==>
      Forced(stored.value.recentDeletedRetentionDays.value, 7, 3650, days)
  {
    Clamp(if stored.Some? then GetOr(stored.value.recentDeletedRetentionDays, 90) else 90, 7, 3650)
  }

  function BatchSize(stored: Option<StoredPolicy>): (size: int)
    ensures 100 <= size <= 5000
    ensures stored.None? || stored.value.cleanupBatchLimit.None? ==> size == 500
    ensures stored.Some? && stored.value.cleanupBatchLimit.Some? ==>
      Forced(stored.value.cleanupBatchLimit.value, 100, 5000, size)
  {
    Clamp(if stored.Some? then GetOr(stored.value.cleanupBatchLimit, 500) else 500, 100, 5000)
  }

  /** Zero, stored or by default, keeps tombstones for ever. */
  function TombstoneDays(stored: Option<StoredPolicy>): (days: int)
    ensures days == 0 || 365 <= days <= 3650
    ensures stored.None? || stored.value.tombstoneRetentionDays in {None, Some(0)} ==> days == 0
    ensures stored.Some? && stored.value.tombstoneRetentionDays !in {None, Some(0)} ==>
      Forced(stored.value.tombstoneRetentionDays.value, 365, 3650, days)
  {
    var days := if stored.Some? then GetOr(stored.value.tombstoneRetentionDays, 0) else 0;
    if days == 0 then 0 else Clamp(days, 365, 3650)
  }

  /** Only a stored `false` switches the cleaner off. */
  function CleanupEnabled(stored: Option<StoredPolicy>): (enabled: bool)
    ensures stored.None? || stored.value.autoCleanupEnabled in {None, Some(true)} ==> enabled
    ensures stored.Some? && stored.value.autoCleanupEnabled == Some(false) ==> !enabled
  {
    stored.Some? ==> GetOr(stored.value.autoCleanupEnabled, true)
  }

  class AssetDeletionPolicy {
    var recentDeletedRetentionDays: int
    var tombstoneRetentionDays: int
    var cleanupBatchLimit: int
    var autoCleanupEnabled: bool

    ghost predicate Normalized()
      reads this
    {
      && 7 <= recentDeletedRetentionDays <= 3650
      && (tombstoneRetentionDays == 0 || 365 <= tombstoneRetentionDays <= 3650)
      && 100 <= cleanupBatchLimit <= 5000
    }

    constructor Default()
      ensures recentDeletedRetentionDays == 90 && tombstoneRetentionDays == 0
      ensures cleanupBatchLimit == 500 && autoCleanupEnabled
    {
      recentDeletedRetentionDays, tombstoneRetentionDays, cleanupBatchLimit := 90, 0, 500;
      autoCleanupEnabled := true;
    }

    /** Force every field into its range, leaving a field alone that is in it already. */
    method Normalize()
      modifies this
      ensures Normalized() && autoCleanupEnabled == old(autoCleanupEnabled)
      ensures old(Normalized()) ==> unchanged(this)
      ensures Forced(old(recentDeletedRetentionDays), 7, 3650, recentDeletedRetentionDays)
      ensures tombstoneRetentionDays == 0 <==> old(tombstoneRetentionDays) == 0
      ensures tombstoneRetentionDays != 0 ==> Forced(old(tombstoneRetentionDays), 365, 3650, tombstoneRetentionDays)
      ensures Forced(old(cleanupBatchLimit), 100, 5000, cleanupBatchLimit)
    {
      if recentDeletedRetentionDays < 7 {
        recentDeletedRetentionDays := 7;
      }
      if recentDeletedRetentionDays > 3650 {
        recentDeletedRetentionDays := 3650;
      }
      if tombstoneRetentionDays != 0 && tombstoneRetentionDays < 365 {
        tombstoneRetentionDays := 365;
      }
      if tombstoneRetentionDays > 3650 {
        tombstoneRetentionDays := 3650;
      }
      if cleanupBatchLimit < 100 {
        cleanupBatchLimit := 100;
      }
      if cleanupBatchLimit > 5000 {
        cleanupBatchLimit := 5000;
      }
    }
  }

  /** The policy in force: the stored values over the defaults, normalized. */
  method GetAssetDeletionPolicy(stored: Option<StoredPolicy>) returns (policy: AssetDeletionPolicy)
    ensures fresh(policy) && policy.Normalized()
    ensures policy.recentDeletedRetentionDays == RetentionDays(stored)
    ensures policy.tombstoneRetentionDays == TombstoneDays(stored)
    ensures policy.cleanupBatchLimit == BatchSize(stored)
    ensures policy.autoCleanupEnabled == CleanupEnabled(stored)
  {
    policy := new AssetDeletionPolicy.Default();
    if stored.Some? {
      policy.recentDeletedRetentionDays := GetOr(stored.value.recentDeletedRetentionDays, 90);
      policy.tombstoneRetentionDays := GetOr(stored.value.tombstoneRetentionDays, 0);
      policy.cleanupBatchLimit := GetOr(stored.value.cleanupBatchLimit, 500);
      policy.autoCleanupEnabled := GetOr(stored.value.autoCleanupEnabled, true);
    }
    policy.Normalize();
  }
}
