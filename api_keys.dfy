/**
 * The `UserApiKey` model: a personal API key's scopes, its optional expiry
 * and its last-use stamp.
 */
module ApiKeys {
  import opened Common

  /** A non-empty run of ASCII digits: the only numeric strings this model compares by value. */
  predicate IsDigits(s: string) {
    |s| > 0 && forall i :: 0 <= i < |s| ==> '0' <= s[i] <= '9'
  }

  /** The decimal value of a string of digits. */
  function DigitsValue(s: string): nat
    requires forall i :: 0 <= i < |s| ==> '0' <= s[i] <= '9'
    decreases |s|
  {
    if s == [] then 0 else 10 * DigitsValue(s[..|s| - 1]) + (s[|s| - 1] as int - '0' as int)
  }

  /**
   * PHP's loose `==` between two strings: two numeric strings compare by
   * value (`"007" == "7"`), anything else byte for byte.
   */
  predicate LooseEquals(a: string, b: string) {
    if IsDigits(a) && IsDigits(b) then DigitsValue(a) == DigitsValue(b) else a == b
  }

  class UserApiKey {
    const id: string
    const userId: string
    /** The `scopes` JSON array; null when the column holds null. */
    var scopes: Option<seq<string>>
    var expiresAt: Option<Time>
    var lastUsedAt: Option<Time>
    var updatedAt: Time

    constructor (id: string, userId: string, scopes: Option<seq<string>>, expiresAt: Option<Time>, createdAt: Time)
      ensures this.id == id && this.userId == userId && this.scopes == scopes && this.expiresAt == expiresAt
      ensures lastUsedAt.None? && updatedAt == createdAt
    {
      this.id := id;
      this.userId := userId;
      this.scopes := scopes;
      this.expiresAt := expiresAt;
      lastUsedAt := None;
      updatedAt := createdAt;
    }

    /** `isExpired`: an expiry is set and lies strictly before `now`. */
    function IsExpired(now: Time): (expired: bool)
      reads this
      ensures expiresAt.None? ==> !expired
      ensures expiresAt.Some? ==> (expired <==> expiresAt.value < now)
    {
      expiresAt.Some? && expiresAt.value < now
    }

    /**
     * `hasScope`: loose `in_array` over `scopes ?? []`.  For a scope that is
     * not a number this is plain membership; a null list grants nothing.
     */
    function HasScope(scope: string): (has: bool)
      reads this
      ensures scopes.None? ==> !has
      ensures !IsDigits(scope) ==> (has <==> scopes.Some? && scope in scopes.value)
      ensures IsDigits(scope) ==>
                (has <==> scopes.Some?
                          && exists s :: s in scopes.value && IsDigits(s) && DigitsValue(s) == DigitsValue(scope))
    {
      var list := scopes.GetOr([]);
      exists i :: 0 <= i < |list| && LooseEquals(scope, list[i])
    }

    /**
     * `touchLastUsed`: `last_used_at` becomes `now`; the row, and so
     * `updated_at`, is written only when that changes the stored value.
     */
    method TouchLastUsed(now: Time)
      modifies this`lastUsedAt, this`updatedAt
      ensures lastUsedAt == Some(now)
      ensures updatedAt == if old(lastUsedAt) == Some(now) then old(updatedAt) else now
    {
      if lastUsedAt != Some(now) {
        lastUsedAt := Some(now);
        updatedAt := now;
      }
    }
  }

  /** Once expired, a key stays expired; a key without expiry never expires. */
  lemma ExpiryIsFinal(k: UserApiKey, t: Time, later: Time)
    requires t <= later
    ensures k.IsExpired(t) ==> k.IsExpired(later)
    ensures k.expiresAt.None? ==> !k.IsExpired(later)
  {
  }

  /** Loose comparison matches numeric scopes written differently: `"007"` is granted by `"7"`. */
  lemma LooseNumericMatch(k: UserApiKey)
    requires k.scopes == Some(["7"])
    ensures k.HasScope("007") && !k.HasScope("8")
  {
    assert IsDigits("007") && IsDigits("7");
    assert "007"[..2] == "00" && "00"[..1] == "0" && "0"[..0] == "";
    assert DigitsValue("007") == 7;
  }

  /** Distinct digit strings without leading zeros never match loosely. */
  lemma {:induction false} CanonicalDigitsInjective(a: string, b: string)
    requires IsDigits(a) && IsDigits(b) && a[0] != '0' && b[0] != '0'
    requires DigitsValue(a) == DigitsValue(b)
    ensures a == b
    decreases |a| + |b|
  {
    if |a| == 1 && |b| == 1 {
    } else if |a| == 1 {
      DigitsAtLeastTen(b);
    } else if |b| == 1 {
      DigitsAtLeastTen(a);
    } else {
      var a' := a[..|a| - 1];
      var b' := b[..|b| - 1];
      assert a'[0] == a[0] && b'[0] == b[0];
      CanonicalDigitsInjective(a', b');
      assert a == a' + [a[|a| - 1]] && b == b' + [b[|b| - 1]];
    }
  }

  /** Two or more digits not starting with `0` are worth at least ten. */
  lemma DigitsAtLeastTen(s: string)
    requires IsDigits(s) && s[0] != '0' && |s| >= 2
    ensures DigitsValue(s) >= 10
  {
    assert s[..|s| - 1][0] == s[0];
    DigitsAtLeast(s[..|s| - 1]);
  }

  /** A digit string that does not start with `0` has a positive value. */
  lemma {:induction false} DigitsAtLeast(s: string)
    requires IsDigits(s) && s[0] != '0'
    ensures DigitsValue(s) >= 1
    decreases |s|
  {
    if |s| > 1 {
      assert s[..|s| - 1][0] == s[0];
      DigitsAtLeast(s[..|s| - 1]);
    }
  }
}
