/**
 * The `User` model: role, activation flag and the storage-quota arithmetic
 * over the files the user owns.
 */
module Users {
  import opened Common
  import opened Files

  /** A row of `users`; `quotaBytes` is null for an unlimited quota. */
  datatype User = User(
    id: string,
    name: string,
    email: string,
    role: string,
    quotaBytes: Option<int>,
    isActive: bool)

  /** `isAdmin`: the role is exactly `admin`. */
  predicate IsAdmin(u: User) {
    u.role == "admin"
  }

  /**
   * `storage_used`: the sum of `size` over the user's files.  The `files`
   * relation goes through the soft-delete scope, so trashed rows do not count.
   */
  function StorageUsed(files: seq<File>, userId: string): (used: int)
    ensures (forall i :: 0 <= i < |files| ==> !Owned(files[i], userId)) ==> used == 0
    decreases |files|
  {
    if files == [] then 0
    else
      var f := files[|files| - 1];
      StorageUsed(files[..|files| - 1], userId) + (if Owned(f, userId) then f.size else 0)
  }

  /** The rows `$user->files()` sees. */
  predicate Owned(f: File, userId: string) {
    f.userId == userId && !f.trashed
  }

  /** `isOverQuota`: never with a null quota, otherwise usage strictly above it. */
  function IsOverQuota(u: User, files: seq<File>): (over: bool)
    ensures u.quotaBytes.None? ==> !over
    ensures over ==> RemainingQuota(u, files) == Some(0)
  {
    u.quotaBytes.Some? && StorageUsed(files, u.id) > u.quotaBytes.value
  }

  /** `remaining_quota`: null for an unlimited quota, otherwise what is left, floored at zero. */
  function RemainingQuota(u: User, files: seq<File>): (r: Option<int>)
    ensures r.None? <==> u.quotaBytes.None?
    ensures r.Some? ==> r.value >= 0 && r.value >= u.quotaBytes.value - StorageUsed(files, u.id)
    ensures r.Some? ==> r.value == 0 || r.value == u.quotaBytes.value - StorageUsed(files, u.id)
  {
    match u.quotaBytes
    case None => None
    case Some(q) =>
      var left := q - StorageUsed(files, u.id);
      Some(if left > 0 then left else 0)
  }

  /** Quota state and remaining quota agree: over quota leaves nothing; something left means not over. */
  lemma QuotaConsistent(u: User, files: seq<File>)
    ensures IsOverQuota(u, files) ==> RemainingQuota(u, files) == Some(0)
    ensures (RemainingQuota(u, files).Some? && RemainingQuota(u, files).value > 0) ==> !IsOverQuota(u, files)
    ensures !IsOverQuota(u, files) && u.quotaBytes.Some?
            ==> RemainingQuota(u, files) == Some(u.quotaBytes.value - StorageUsed(files, u.id))
  {
  }

  /**
   * Over quota means usage strictly above a set quota: usage exactly at the
   * quota is not over, and leaves nothing.
   */
  lemma OverQuotaIsStrict(u: User, files: seq<File>)
    ensures u.quotaBytes.Some? ==> (IsOverQuota(u, files) <==> StorageUsed(files, u.id) > u.quotaBytes.value)
    ensures u.quotaBytes.Some? && StorageUsed(files, u.id) == u.quotaBytes.value ==>
              !IsOverQuota(u, files) && RemainingQuota(u, files) == Some(0)
  {
  }

  /** Usage over two batches of rows is the sum of the usage over each. */
  lemma {:induction false} StorageUsedAppend(a: seq<File>, b: seq<File>, userId: string)
    ensures StorageUsed(a + b, userId) == StorageUsed(a, userId) + StorageUsed(b, userId)
    decreases |b|
  {
    if b == [] {
      assert a + b == a;
    } else {
      var b' := b[..|b| - 1];
      StorageUsedAppend(a, b', userId);
      assert (a + b)[..|a + b| - 1] == a + b';
    }
  }

  /** Storing a new file grows its owner's usage by its size and leaves everybody else's alone. */
  lemma StorageUsedAfterStore(files: seq<File>, f: File, userId: string)
    requires !f.trashed
    ensures StorageUsed(files + [f], userId)
         == StorageUsed(files, userId) + (if f.userId == userId then f.size else 0)
  {
    assert (files + [f])[..|files|] == files;
  }

  /** With non-negative sizes, usage is never negative. */
  lemma {:induction false} StorageUsedNonNegative(files: seq<File>, userId: string)
    requires forall i :: 0 <= i < |files| ==> files[i].size >= 0
    ensures StorageUsed(files, userId) >= 0
    decreases |files|
  {
    if files != [] {
      StorageUsedNonNegative(files[..|files| - 1], userId);
    }
  }
}
