/**
 * The `UploadSession` model: the record of a resumable upload, its status
 * (`pending` until the upload finishes or fails) and the query scopes the
 * cleanup and listing code filter with.
 */
module UploadSessions {
  import opened Common
  import Files
  import Users
  import Seqs

  const StatusPending: string := "pending"
  const StatusComplete: string := "complete"
  const StatusFailed: string := "failed"

  /** `scopeStale`'s default age, in hours. */
  const DefaultStaleHours: int := 24

  class UploadSession {
    const id: string
    const userId: string
    const createdAt: Time
    /** The `status` column: any string, one of the three constants in practice. */
    var status: string
    /** The created file, once there is one. */
    var fileId: Option<string>
    var updatedAt: Time

    /** A new session, `pending` as the column default says. */
    constructor (id: string, userId: string, createdAt: Time)
      ensures this.id == id && this.userId == userId && this.createdAt == createdAt
      ensures status == StatusPending && fileId.None? && updatedAt == createdAt
    {
      this.id := id;
      this.userId := userId;
      this.createdAt := createdAt;
      status := StatusPending;
      fileId := None;
      updatedAt := createdAt;
    }

    predicate IsPending()
      reads this
    {
      status == StatusPending
    }

    predicate IsComplete()
      reads this
    {
      status == StatusComplete
    }

    predicate IsFailed()
      reads this
    {
      status == StatusFailed
    }

    /**
     * `markComplete`: status `complete` and the file linked, whatever the
     * status was before; `updated_at` moves only when a value changed.
     */
    method MarkComplete(file: Files.File, now: Time)
      modifies this`status, this`fileId, this`updatedAt
      ensures status == StatusComplete && fileId == Some(file.id)
      ensures IsComplete() && !IsPending() && !IsFailed()
      ensures updatedAt == if old(status) == StatusComplete && old(fileId) == Some(file.id)
                           then old(updatedAt) else now
    {
      if status != StatusComplete || fileId != Some(file.id) {
        status := StatusComplete;
        fileId := Some(file.id);
        updatedAt := now;
      }
    }

    /** `markFailed`: status `failed`, the file link kept, whatever the status was before. */
    method MarkFailed(now: Time)
      modifies this`status, this`updatedAt
      ensures status == StatusFailed && fileId == old(fileId)
      ensures IsFailed() && !IsPending() && !IsComplete()
      ensures updatedAt == if old(status) == StatusFailed then old(updatedAt) else now
    {
      if status != StatusFailed {
        status := StatusFailed;
        updatedAt := now;
      }
    }
  }

  /** `where('status', $status)` over a list of rows, keeping their order. */
  function WithStatus(q: seq<UploadSession>, status: string): (r: seq<UploadSession>)
    reads q
    ensures forall i :: 0 <= i < |r| ==> r[i] in q && r[i].status == status
    ensures forall i :: 0 <= i < |q| && q[i].status == status ==> q[i] in r
    ensures Seqs.IsSubsequence(r, q)
    decreases |q|
  {
    if q == [] then []
    else
      var rest := WithStatus(q[1..], status);
      assert q == [q[0]] + q[1..];
      Seqs.SubsequenceCons(rest, q[0], q[1..]);
      if q[0].status == status then
        assert ([q[0]] + rest)[1..] == rest;
        [q[0]] + rest
      else rest
  }

  /** `scopePending`. */
  function Pending(q: seq<UploadSession>): (r: seq<UploadSession>)
    reads q
    ensures forall i :: 0 <= i < |r| ==> r[i] in q && r[i].IsPending()
    ensures forall i :: 0 <= i < |q| && q[i].IsPending() ==> q[i] in r
    ensures Seqs.IsSubsequence(r, q)
  {
    WithStatus(q, StatusPending)
  }

  /** `scopeComplete`. */
  function Complete(q: seq<UploadSession>): (r: seq<UploadSession>)
    reads q
    ensures forall i :: 0 <= i < |r| ==> r[i] in q && r[i].IsComplete()
    ensures forall i :: 0 <= i < |q| && q[i].IsComplete() ==> q[i] in r
    ensures Seqs.IsSubsequence(r, q)
  {
    WithStatus(q, StatusComplete)
  }

  /** `scopeForUser`: the rows of one user. */
  function ForUser(q: seq<UploadSession>, user: Users.User): (r: seq<UploadSession>)
    reads q
    ensures forall i :: 0 <= i < |r| ==> r[i] in q && r[i].userId == user.id
    ensures forall i :: 0 <= i < |q| && q[i].userId == user.id ==> q[i] in r
    ensures Seqs.IsSubsequence(r, q)
    decreases |q|
  {
    if q == [] then []
    else
      var rest := ForUser(q[1..], user);
      assert q == [q[0]] + q[1..];
      Seqs.SubsequenceCons(rest, q[0], q[1..]);
      if q[0].userId == user.id then
        assert ([q[0]] + rest)[1..] == rest;
        [q[0]] + rest
      else rest
  }

  /** The row was created strictly before `now` minus `hours` hours. */
  predicate OlderThan(s: UploadSession, hours: int, now: Time)
    reads s
  {
    s.createdAt < now - hours * SecondsPerHour
  }

  /** `scopeStale`: pending rows older than `hours` hours (24 unless given). */
  function Stale(q: seq<UploadSession>, hours: int, now: Time): (r: seq<UploadSession>)
    reads q
    ensures forall i :: 0 <= i < |r| ==> r[i] in q && r[i].IsPending() && OlderThan(r[i], hours, now)
    ensures forall i :: 0 <= i < |q| && q[i].IsPending() && OlderThan(q[i], hours, now) ==> q[i] in r
    ensures Seqs.IsSubsequence(r, q)
    decreases |q|
  {
    if q == [] then []
    else
      var rest := Stale(q[1..], hours, now);
      assert q == [q[0]] + q[1..];
      Seqs.SubsequenceCons(rest, q[0], q[1..]);
      if q[0].IsPending() && OlderThan(q[0], hours, now) then
        assert ([q[0]] + rest)[1..] == rest;
        [q[0]] + rest
      else rest
  }

  /** `stale()` without an argument: pending rows created more than a day (86400 seconds) before `now`. */
  function StaleByDefault(q: seq<UploadSession>, now: Time): (r: seq<UploadSession>)
    reads q
    ensures forall i :: 0 <= i < |r| ==> r[i] in q && r[i].IsPending() && r[i].createdAt < now - 86400
    ensures forall i :: 0 <= i < |q| && q[i].IsPending() && q[i].createdAt < now - 86400 ==> q[i] in r
  {
    Stale(q, DefaultStaleHours, now)
  }

  /** A row is in at most one of the three states. */
  lemma StatusesExclusive(s: UploadSession)
    ensures !(s.IsPending() && s.IsComplete())
    ensures !(s.IsPending() && s.IsFailed())
    ensures !(s.IsComplete() && s.IsFailed())
  {
  }

  /** Stale rows are pending rows, and never complete ones. */
  lemma StaleArePending(q: seq<UploadSession>, hours: int, now: Time)
    ensures forall i :: 0 <= i < |Stale(q, hours, now)| ==>
              Stale(q, hours, now)[i] in Pending(q) && Stale(q, hours, now)[i] !in Complete(q)
  {
  }

  /** Asking for a longer age can only shrink the stale list, which stays in order. */
  lemma {:induction false} StaleShrinksWithAge(q: seq<UploadSession>, hours: int, longer: int, now: Time)
    requires hours <= longer
    ensures Seqs.IsSubsequence(Stale(q, longer, now), Stale(q, hours, now))
    decreases |q|
  {
    if q != [] {
      var small := Stale(q[1..], longer, now);
      var large := Stale(q[1..], hours, now);
      StaleShrinksWithAge(q[1..], hours, longer, now);
      if q[0].IsPending() && OlderThan(q[0], longer, now) {
        assert ([q[0]] + small)[1..] == small;
        assert ([q[0]] + large)[1..] == large;
      } else if q[0].IsPending() && OlderThan(q[0], hours, now) {
        Seqs.SubsequenceCons(small, q[0], large);
      }
    }
  }
}
