/** What one write to the event-log table means (pkg/storage/eventlogs/store_write.go). */
module StatusOutcomes {
  import opened GoText
  import opened StatusStore
  import PageTokens

  /** A latency is the whole milliseconds of a span in nanoseconds, rounded toward zero. */
  lemma LatencyIsInMilliseconds(span: int)
    ensures span >= 0 ==> Milliseconds(span) * 1_000_000 <= span < (Milliseconds(span) + 1) * 1_000_000
    ensures Milliseconds(-span) == -Milliseconds(span)
  {
  }

  /** The write reaches the row: neither argument is blank, the trimmed id is the row's, the tenant is
      the row's or none, and a `queued` write finds no `success` or `failed`. */
  predicate Reaches(rows: Table, u: Update, id: string) {
    && id in rows && TrimSpace(u.id) == id != "" && TrimSpace(u.status) != ""
    && (u.tenant == "" || u.tenant == rows[id].tenantId)
    && !(TrimSpace(u.status) == "queued" && (rows[id].status == "success" || rows[id].status == "failed"))
  }

  /** A status write changes the one row it reaches: status, message and the time of the write, and
      for `success` and `failed` the latency since the row was created. Every other row stays. */
  lemma OneStatusWrite(rows: Table, u: Update, id: string)
    requires id in rows
    ensures Apply(rows, u).Keys == rows.Keys
    ensures !Reaches(rows, u, id) ==> Apply(rows, u)[id] == rows[id]
    ensures Reaches(rows, u, id) ==>
      var r, r' := rows[id], Apply(rows, u)[id];
      && r'.status == TrimSpace(u.status) && r'.errorMessage == TrimSpace(u.message) && r'.updatedAt == u.written
      && r'.latencyMs == (if TrimSpace(u.status) in {"success", "failed"} && r.createdAt != PageTokens.ZERO_TIME
                          then Milliseconds(u.measured - r.createdAt) else r.latencyMs)
      && r' == r.(status := r'.status, errorMessage := r'.errorMessage, updatedAt := r'.updatedAt, latencyMs := r'.latencyMs)
  {
    hide TrimSpace, Milliseconds;
  }

  /** The call fails when an argument is blank, and when no row is reached, but for a `queued` write. */
  lemma StatusWriteFails(rows: Table, u: Update)
    ensures Fails(rows, u) <==>
      TrimSpace(u.id) == "" || TrimSpace(u.status) == "" || (TrimSpace(u.status) != "queued" && forall id :: !Reaches(rows, u, id))
  {
    hide TrimSpace;
    if TrimSpace(u.id) != "" && TrimSpace(u.status) != "" {
      assert Hits(rows, u) <==> Reaches(rows, u, TrimSpace(u.id));
    }
  }

  /** A new row keeps what it brings; what is missing is filled in: the id, the tenant, `queued`, the
      present instant, and no latency below zero. */
  lemma NewRowIsFilledIn(record: NewLog, tenant: string, now: PageTokens.Time, generated: string)
    ensures var r, r' := record.row, FillDefaults(record, tenant, now, generated).row;
      && FillDefaults(record, tenant, now, generated).id == (if record.id != "" then record.id else generated)
      && r'.tenantId == (if r.tenantId != "" then r.tenantId else tenant)
      && r'.status == (if r.status != "" then r.status else "queued")
      && r'.createdAt == (if r.createdAt != PageTokens.ZERO_TIME then r.createdAt else now)
      && r'.updatedAt == (if r.updatedAt != PageTokens.ZERO_TIME then r.updatedAt else r'.createdAt)
      && r'.latencyMs == (if r.latencyMs >= 0 then r.latencyMs else 0)
      && r' == r.(tenantId := r'.tenantId, status := r'.status, createdAt := r'.createdAt, updatedAt := r'.updatedAt, latencyMs := r'.latencyMs)
  {
  }
}
