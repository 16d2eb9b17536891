/** The queue's table as it is stored: instants are texts, and the claim compares and orders texts. */
module QueueTexts {
  import opened Wrappers
  import opened TextOrder
  import opened Timestamps
  import Q = TaskQueue

  /** The columns a claim reads and writes. */
  datatype TextRow = TextRow(
    status: Q.TaskStatus, attempts: nat, availableAt: string, createdAt: string, claimedAt: Option<string>)

  type TextRows = map<string, TextRow>

  /** The text is the stored form of the instant. */
  ghost predicate Writes(text: string, instant: int) {
    exists t :: Valid(t) && IsoFormat(t) == text && Micros(t) == instant
  }

  /** Stored instants compare as their texts do. */
  lemma WritesOrder(a: string, s: int, b: string, t: int)
    requires Writes(a, s) && Writes(b, t)
    ensures Less(a, b) <==> s < t
    ensures AtMost(a, b) <==> s <= t
    ensures a == b <==> s == t
  {
    hide Valid, IsoFormat, Micros, Less;
    var u :| Valid(u) && IsoFormat(u) == a && Micros(u) == s;
    var v :| Valid(v) && IsoFormat(v) == b && Micros(v) == t;
    TextOrderIsTimeOrder(u, v);
    TextOrderIsTimeOrder(v, u);
  }

  ghost predicate StoresRow(text: TextRow, row: Q.Row) {
    && text.status == row.status && text.attempts == row.attempts
    && Writes(text.availableAt, row.availableAt) && Writes(text.createdAt, row.createdAt)
    && (text.claimedAt.Some? <==> row.claimedAt.Some?)
    && (text.claimedAt.Some? ==> Writes(text.claimedAt.value, row.claimedAt.value))
  }

  ghost predicate StoresTable(texts: TextRows, rows: Q.Rows) {
    texts.Keys == rows.Keys && forall id :: id in texts ==> StoresRow(texts[id], rows[id])
  }

  /** An instant some datetime denotes. */
  ghost predicate Representable(instant: int) {
    exists t :: Valid(t) && Micros(t) == instant
  }

  ghost function TextOf(instant: int): (text: string)
    requires Representable(instant)
    ensures Writes(text, instant)
  {
    var t :| Valid(t) && Micros(t) == instant;
    assert Writes(IsoFormat(t), instant);
    IsoFormat(t)
  }

  ghost predicate RowRepresentable(row: Q.Row) {
    && Representable(row.availableAt) && Representable(row.createdAt)
    && (row.claimedAt.Some? ==> Representable(row.claimedAt.value))
  }

  ghost function TextRowOf(row: Q.Row): (text: TextRow)
    requires RowRepresentable(row)
    ensures StoresRow(text, row)
  {
    hide Writes, Representable;
    TextRow(row.status, row.attempts, TextOf(row.availableAt), TextOf(row.createdAt),
            if row.claimedAt.Some? then Some(TextOf(row.claimedAt.value)) else None)
  }

  /** Every table whose instants datetimes denote has a stored form. */
  lemma StoredFormExists(rows: Q.Rows)
    requires forall id :: id in rows ==> RowRepresentable(rows[id])
    ensures exists texts :: StoresTable(texts, rows)
  {
    hide StoresRow, RowRepresentable;
    var texts := map id | id in rows :: TextRowOf(rows[id]);
    assert StoresTable(texts, rows);
  }

  // ---------- The statements of a claim, on texts ----------

  predicate Expired(row: TextRow, staleBefore: string) {
    row.status == Q.Running && row.claimedAt.Some? && AtMost(row.claimedAt.value, staleBefore)
  }

  predicate Available(row: TextRow, now: string) {
    row.status == Q.Pending && AtMost(row.availableAt, now)
  }

  /** The first update: expired leases become pending from now on. */
  function Reclaim(texts: TextRows, now: string, staleBefore: string): TextRows {
    map k | k in texts ::
      if Expired(texts[k], staleBefore) then texts[k].(status := Q.Pending, availableAt := now, claimedAt := None)
      else texts[k]
  }

  predicate Precedes(texts: TextRows, a: string, b: string)
    requires a in texts && b in texts
  {
    Less(texts[a].createdAt, texts[b].createdAt) || (texts[a].createdAt == texts[b].createdAt && Less(a, b))
  }

  /** The row the select puts first. */
  predicate IsSelected(texts: TextRows, now: string, id: string) {
    && id in texts && Available(texts[id], now)
    && forall k :: k in texts && k != id && Available(texts[k], now) ==> Precedes(texts, id, k)
  }

  /** The second update. */
  function Lease(texts: TextRows, id: string, now: string): TextRows
    requires id in texts
  {
    texts[id := texts[id].(status := Q.Running, attempts := texts[id].attempts + 1, claimedAt := Some(now))]
  }

  // ---------- They are the claim on instants ----------

  lemma ReclaimStores(texts: TextRows, rows: Q.Rows, now: string, staleBefore: string, at: int, timeout: int)
    requires StoresTable(texts, rows) && Writes(now, at) && Writes(staleBefore, at - timeout * Q.SECOND)
    ensures StoresTable(Reclaim(texts, now, staleBefore), Q.ReclaimExpired(rows, at, timeout))
  {
    hide Writes, AtMost;
    forall id | id in texts
      ensures StoresRow(Reclaim(texts, now, staleBefore)[id], Q.ReclaimExpired(rows, at, timeout)[id])
    {
      if texts[id].claimedAt.Some? {
        WritesOrder(texts[id].claimedAt.value, rows[id].claimedAt.value, staleBefore, at - timeout * Q.SECOND);
      }
    }
  }

  lemma SelectedIsFirst(texts: TextRows, rows: Q.Rows, now: string, at: int, id: string)
    requires StoresTable(texts, rows) && Writes(now, at)
    ensures IsSelected(texts, now, id) <==> Q.IsFirstAvailable(rows, at, id)
  {
    hide Writes, AtMost;
    forall k | k in texts
      ensures Available(texts[k], now) <==> Q.Available(rows[k], at)
      ensures id in texts ==> (Precedes(texts, id, k) <==> Q.Precedes(rows, id, k))
    {
      WritesOrder(texts[k].availableAt, rows[k].availableAt, now, at);
      if id in texts {
        WritesOrder(texts[id].createdAt, rows[id].createdAt, texts[k].createdAt, rows[k].createdAt);
      }
    }
  }

  /** Reclaiming and then selecting by comparing texts picks exactly the task that is next by instants. */
  lemma SelectedIsNext(texts: TextRows, rows: Q.Rows, now: string, staleBefore: string, at: int, timeout: int,
                       id: string)
    requires StoresTable(texts, rows) && timeout > 0
    requires Writes(now, at) && Writes(staleBefore, at - timeout * Q.SECOND)
    ensures IsSelected(Reclaim(texts, now, staleBefore), now, id) <==> Q.Next(rows, at, timeout) == Some(id)
  {
    hide Writes, IsSelected, Q.IsFirstAvailable, StoresTable, Reclaim, Q.ReclaimExpired;
    ReclaimStores(texts, rows, now, staleBefore, at, timeout);
    SelectedIsFirst(Reclaim(texts, now, staleBefore), Q.ReclaimExpired(rows, at, timeout), now, at, id);
    NextIffFirstAvailable(rows, at, timeout);
  }

  lemma LeaseStores(texts: TextRows, rows: Q.Rows, id: string, now: string, at: int)
    requires StoresTable(texts, rows) && Writes(now, at) && id in rows
    ensures StoresTable(Lease(texts, id, now), rows[id := Q.Leased(rows[id], at)])
  {
    hide Writes;
  }

  /** A claim that compares and writes texts hands out the task that is next by instants, none exactly when there is
      none, and leaves the stored form of the table after the claim. */
  lemma TextClaimIsClaim(texts: TextRows, rows: Q.Rows, now: string, staleBefore: string, at: int, timeout: int)
    requires StoresTable(texts, rows) && timeout > 0
    requires Writes(now, at) && Writes(staleBefore, at - timeout * Q.SECOND)
    ensures forall id :: IsSelected(Reclaim(texts, now, staleBefore), now, id) <==>
      Q.Next(rows, at, timeout) == Some(id)
    ensures var reclaimed := Reclaim(texts, now, staleBefore);
      match Q.Next(rows, at, timeout)
      case Some(id) => id in texts && StoresTable(Lease(reclaimed, id, now), Q.AfterClaim(rows, at, timeout))
      case None => reclaimed == texts && StoresTable(reclaimed, Q.AfterClaim(rows, at, timeout))
  {
    forall id
      ensures IsSelected(Reclaim(texts, now, staleBefore), now, id) <==> Q.Next(rows, at, timeout) == Some(id)
    {
      SelectedIsNext(texts, rows, now, staleBefore, at, timeout, id);
    }
    hide Writes, IsSelected, Q.IsNext;
    match Q.Next(rows, at, timeout)
    case Some(id) =>
      Q.ClaimRowByRow(rows, at, timeout);
      ReclaimStores(texts, rows, now, staleBefore, at, timeout);
      LeaseStores(Reclaim(texts, now, staleBefore), Q.ReclaimExpired(rows, at, timeout), id, now, at);
    case None =>
      NothingReclaimed(texts, rows, now, staleBefore, at, timeout);
  }

  lemma NextIffFirstAvailable(rows: Q.Rows, at: int, timeout: int)
    requires timeout > 0
    ensures forall id :: Q.IsFirstAvailable(Q.ReclaimExpired(rows, at, timeout), at, id) <==>
      Q.Next(rows, at, timeout) == Some(id)
  {
    Q.SelectAfterReclaim(rows, at, timeout);
    var after := Q.ReclaimExpired(rows, at, timeout);
    forall id | Q.Next(rows, at, timeout) == Some(id)
      ensures Q.IsFirstAvailable(after, at, id)
    {
      assert Q.Claimable(rows[id], at, timeout);
      assert Q.Available(after[id], at);
      var first :| first in after && Q.IsFirstAvailable(after, at, first);
    }
  }

  lemma NothingReclaimed(texts: TextRows, rows: Q.Rows, now: string, staleBefore: string, at: int, timeout: int)
    requires StoresTable(texts, rows) && Writes(staleBefore, at - timeout * Q.SECOND)
    requires Q.Next(rows, at, timeout) == None
    ensures Reclaim(texts, now, staleBefore) == texts
  {
    hide Writes, AtMost, Q.IsNext;
    forall id | id in texts
      ensures !Expired(texts[id], staleBefore)
    {
      assert !Q.Claimable(rows[id], at, timeout);
      if texts[id].claimedAt.Some? {
        WritesOrder(texts[id].claimedAt.value, rows[id].claimedAt.value, staleBefore, at - timeout * Q.SECOND);
      }
    }
  }
}
