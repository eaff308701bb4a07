/** pkg/storage/eventlogs/store_write.go: creating event logs and writing their status. The
    clock, the generated ids and whether an insert reaches the database are parameters. */
module StatusStore {
  import opened GoText
  import opened PageTokens

  const QUEUED := "queued"
  const SUCCESS := "success"
  const FAILED := "failed"

  /** What a row copies from the event it is about. */
  datatype Source = Source(
    provider: string, name: string, requestId: string, stateId: string, installationId: string,
    namespaceId: string, namespaceName: string)

  datatype LogRow = LogRow(
    source: Source, tenantId: string, topic: string, ruleId: string, ruleWhen: string, drivers: seq<string>, matched: bool,
    status: string, errorMessage: string, latencyMs: int, createdAt: Time, updatedAt: Time,
    body: string, transformedBody: string)

  datatype NewLog = NewLog(id: string, row: LogRow)

  /** The table: the id is its primary key. */
  type Table = map<string, LogRow>

  predicate IsTerminal(status: string) { status == SUCCESS || status == FAILED }

  // ---------- CreateEventLogs ----------

  function FillDefaults(record: NewLog, tenant: string, now: Time, generated: string): NewLog {
    var r := record.row;
    var createdAt := if r.createdAt == ZERO_TIME then now else r.createdAt;
    NewLog(if record.id == "" then generated else record.id,
           r.(tenantId := if r.tenantId == "" then tenant else r.tenantId,
              status := if r.status == "" then QUEUED else r.status,
              createdAt := createdAt,
              updatedAt := if r.updatedAt == ZERO_TIME then createdAt else r.updatedAt,
              latencyMs := if r.latencyMs < 0 then 0 else r.latencyMs))
  }

  predicate Insertable(rows: Table, logs: seq<NewLog>) {
    && (forall i | 0 <= i < |logs| :: logs[i].id !in rows)
    && (forall i, j | 0 <= i < j < |logs| :: logs[i].id != logs[j].id)
  }

  function Inserted(rows: Table, logs: seq<NewLog>): Table {
    if logs == [] then rows else Inserted(rows, logs[..|logs| - 1])[logs[|logs| - 1].id := logs[|logs| - 1].row]
  }

  // ---------- UpdateEventLogStatus ----------

  datatype Update = Update(tenant: string, id: string, status: string, message: string, written: Time, measured: Time)

  // time.Duration.Milliseconds rounds toward zero
  function Milliseconds(d: int): int {
    if d >= 0 then d / 1_000_000 else -(-d / 1_000_000)
  }

  /** The WHERE clause shared by the lookup and the write. */
  predicate Selects(rows: Table, u: Update) {
    TrimSpace(u.id) in rows && (u.tenant == "" || rows[TrimSpace(u.id)].tenantId == u.tenant)
  }

  predicate WellFormed(u: Update) { TrimSpace(u.id) != "" && TrimSpace(u.status) != "" }

  /** The write goes through: a queued write leaves terminal rows alone. */
  predicate Hits(rows: Table, u: Update) {
    && WellFormed(u) && Selects(rows, u)
    && (TrimSpace(u.status) == QUEUED ==> !IsTerminal(rows[TrimSpace(u.id)].status))
  }

  function Written(r: LogRow, u: Update): LogRow {
    var status := TrimSpace(u.status);
    r.(status := status, errorMessage := TrimSpace(u.message), updatedAt := u.written,
       latencyMs := if IsTerminal(status) && r.createdAt != ZERO_TIME then Milliseconds(u.measured - r.createdAt) else r.latencyMs)
  }

  function Apply(rows: Table, u: Update): Table {
    if Hits(rows, u) then rows[TrimSpace(u.id) := Written(rows[TrimSpace(u.id)], u)] else rows
  }

  /** The error return: blank arguments, or nothing to write unless the write was a queued one. */
  predicate Fails(rows: Table, u: Update) {
    !WellFormed(u) || (!Hits(rows, u) && TrimSpace(u.status) != QUEUED)
  }

  class Store {
    var rows: Table

    method CreateEventLogs(records: seq<NewLog>, tenant: string, now: Time, generated: seq<string>, dbOk: bool) returns (ok: bool)
      requires |generated| == |records|
      modifies this
      ensures var logs := seq(|records|, i requires 0 <= i < |records| => FillDefaults(records[i], tenant, now, generated[i]));
        && (ok <==> records == [] || (dbOk && Insertable(old(rows), logs)))
        && rows == if ok then Inserted(old(rows), logs) else old(rows)
    {
      ghost var logs := seq(|records|, i requires 0 <= i < |records| => FillDefaults(records[i], tenant, now, generated[i]));
      if |records| == 0 {
        return true;
      }
      var data: seq<NewLog> := [];
      for i := 0 to |records|
        invariant data == logs[..i] && rows == old(rows)
      {
        var record := records[i];
        var r := record.row;
        var id := record.id;
        if r.tenantId == "" { r := r.(tenantId := tenant); }
        if id == "" { id := generated[i]; }
        if r.status == "" { r := r.(status := QUEUED); }
        if r.createdAt == ZERO_TIME { r := r.(createdAt := now); }
        if r.updatedAt == ZERO_TIME { r := r.(updatedAt := r.createdAt); }
        if r.latencyMs < 0 { r := r.(latencyMs := 0); }
        data := data + [NewLog(id, r)];
      }
      assert data == logs;
      if !dbOk || !Insertable(rows, data) {   // one INSERT: a duplicate key rejects it as a whole
        return false;
      }
      rows := Inserted(rows, data);
      return true;
    }

    method UpdateEventLogStatus(tenant: string, id: string, status: string, message: string, written: Time, measured: Time)
      returns (ok: bool)
      modifies this
      ensures var u := Update(tenant, id, status, message, written, measured);
        rows == Apply(old(rows), u) && ok == !Fails(old(rows), u)
    {
      hide TrimSpace;
      var id', status' := TrimSpace(id), TrimSpace(status);
      if id' == "" || status' == "" {
        return false;
      }
      var found := id' in rows && (tenant == "" || rows[id'].tenantId == tenant);
      var latency: Option<int> := None;
      if status' == SUCCESS || status' == FAILED {
        if found && rows[id'].createdAt != ZERO_TIME {
          latency := Some(Milliseconds(measured - rows[id'].createdAt));
        }
      }
      if status' == QUEUED && found {
        found := rows[id'].status != SUCCESS && rows[id'].status != FAILED;
      }
      if !found {
        return status' == QUEUED;
      }
      var updated := rows[id'].(status := status', errorMessage := TrimSpace(message), updatedAt := written);
      if latency.Some? {
        updated := updated.(latencyMs := latency.value);
      }
      rows := rows[id' := updated];
      return true;
    }
  }

  // ---------- whole runs ----------

  function Run(rows: Table, us: seq<Update>): Table {
    if us == [] then rows else Apply(Run(rows, us[..|us| - 1]), us[|us| - 1])
  }

  /** A status the server and the SDK worker write. */
  predicate Ordinary(u: Update) { TrimSpace(u.status) in {QUEUED, SUCCESS, FAILED} }

  /** The update is a terminal write to the row with this id and tenant. */
  predicate WritesTerminal(u: Update, id: string, tenantId: string) {
    WellFormed(u) && TrimSpace(u.id) == id && (u.tenant == "" || u.tenant == tenantId) && IsTerminal(TrimSpace(u.status))
  }

  function LastTerminal(us: seq<Update>, id: string, tenantId: string): Option<Update> {
    if us == [] then None
    else if WritesTerminal(us[|us| - 1], id, tenantId) then Some(us[|us| - 1])
    else LastTerminal(us[..|us| - 1], id, tenantId)
  }

  /** A terminal row keeps a terminal status under an update that reaches it exactly when the
      written status is queued, success or failed; a `delivered` write, say, does away with it. */
  lemma TerminalStaysIffOrdinary(rows: Table, u: Update)
    requires WellFormed(u) && Selects(rows, u) && IsTerminal(rows[TrimSpace(u.id)].status)
    ensures IsTerminal(Apply(rows, u)[TrimSpace(u.id)].status) <==> Ordinary(u)
  {
    hide TrimSpace;
  }

  lemma DeliveredOverwritesSuccess(r: LogRow, t: Time)
    requires r.status == SUCCESS
    ensures Apply(map["log-1" := r], Update("", "log-1", "delivered", "", t, t))["log-1"].status == "delivered"
  {
    VisibleIsTrimmed("log-1");
    VisibleIsTrimmed("delivered");
    hide TrimSpace;
  }

  /** Over any run of ordinary updates, every row keeps its id, tenant and creation time; its
      status, message and latency are those of the last terminal write to it, if there was one;
      otherwise a terminal status is still the one it started with, and any other is the
      starting one or queued. */
  lemma {:induction false} RunIsLastTerminalWrite(rows: Table, us: seq<Update>, id: string)
    requires id in rows && forall i | 0 <= i < |us| :: Ordinary(us[i])
    ensures id in Run(rows, us)
    ensures Run(rows, us)[id].tenantId == rows[id].tenantId && Run(rows, us)[id].createdAt == rows[id].createdAt
    ensures var last := LastTerminal(us, id, rows[id].tenantId);
      var r := Run(rows, us)[id];
      match last
      case Some(u) =>
        && r.status == TrimSpace(u.status) && r.errorMessage == TrimSpace(u.message)
        && (rows[id].createdAt != ZERO_TIME ==> r.latencyMs == Milliseconds(u.measured - rows[id].createdAt))
      case None =>
        && r.latencyMs == rows[id].latencyMs
        && (if IsTerminal(rows[id].status) then r.status == rows[id].status else r.status in {rows[id].status, QUEUED})
  {
    hide TrimSpace, Milliseconds;
    if us != [] {
      RunIsLastTerminalWrite(rows, us[..|us| - 1], id);
      LastTerminalIsTerminal(us[..|us| - 1], id, rows[id].tenantId);
    }
  }

  lemma {:induction false} LastTerminalIsTerminal(us: seq<Update>, id: string, tenantId: string)
    ensures LastTerminal(us, id, tenantId).Some? ==>
      LastTerminal(us, id, tenantId).value in us && WritesTerminal(LastTerminal(us, id, tenantId).value, id, tenantId)
  {
    if us != [] {
      LastTerminalIsTerminal(us[..|us| - 1], id, tenantId);
    }
  }

  /** Rows whose id no update names, or whose tenant no update has, stay as they are; no row is
      made or lost. */
  lemma {:induction false} OtherRowsStay(rows: Table, us: seq<Update>)
    ensures Run(rows, us).Keys == rows.Keys
    ensures forall id | id in rows && (forall i | 0 <= i < |us| :: TrimSpace(us[i].id) != id || (us[i].tenant != "" && us[i].tenant != rows[id].tenantId)) ::
      Run(rows, us)[id] == rows[id]
  {
    hide TrimSpace;
    if us != [] {
      var init, u := us[..|us| - 1], us[|us| - 1];
      OtherRowsStay(rows, init);
      forall id | id in rows && (forall i | 0 <= i < |us| :: TrimSpace(us[i].id) != id || (us[i].tenant != "" && us[i].tenant != rows[id].tenantId))
        ensures Run(rows, us)[id] == rows[id]
      {
        assert forall i | 0 <= i < |init| :: init[i] == us[i];
        assert TrimSpace(u.id) != id || (u.tenant != "" && u.tenant != rows[id].tenantId);
      }
    }
  }

  lemma {:induction false} RunSplits(rows: Table, us: seq<Update>, vs: seq<Update>)
    ensures Run(rows, us + vs) == Run(Run(rows, us), vs)
  {
    if vs == [] {
      assert us + vs == us;
    } else {
      assert (us + vs)[..|us + vs| - 1] == us + vs[..|vs| - 1];
      RunSplits(rows, us, vs[..|vs| - 1]);
    }
  }

  /** A monotone clock that starts no earlier than the row. */
  predicate ClockFrom(us: seq<Update>, start: Time) {
    && (forall i | 0 <= i < |us| :: start <= us[i].measured)
    && (forall i, j | 0 <= i < j < |us| :: us[i].measured <= us[j].measured)
  }

  /** Once terminal, a row stays terminal; under a monotone clock its latency is never negative
      and never shrinks. */
  lemma TerminalIsForGood(rows: Table, us: seq<Update>, vs: seq<Update>, id: string)
    requires id in rows && forall i | 0 <= i < |us + vs| :: Ordinary((us + vs)[i])
    requires rows[id].createdAt != ZERO_TIME && ClockFrom(us + vs, rows[id].createdAt)
    requires LastTerminal(us, id, rows[id].tenantId).Some?
    ensures id in Run(rows, us) && id in Run(rows, us + vs)
    ensures IsTerminal(Run(rows, us)[id].status) && IsTerminal(Run(rows, us + vs)[id].status)
    ensures 0 <= Run(rows, us)[id].latencyMs <= Run(rows, us + vs)[id].latencyMs
  {
    hide TrimSpace, Run, LastTerminal;
    var tenantId := rows[id].tenantId;
    assert forall i | 0 <= i < |us| :: us[i] == (us + vs)[i];
    assert forall i | 0 <= i < |vs| :: vs[i] == (us + vs)[|us| + i];
    RunIsLastTerminalWrite(rows, us, id);
    RunIsLastTerminalWrite(rows, us + vs, id);
    LastTerminalSplits(us, vs, id, tenantId);
    LastTerminalIsTerminal(us, id, tenantId);
    LastTerminalIsTerminal(vs, id, tenantId);
    var first, last := LastTerminal(us, id, tenantId).value, LastTerminal(us + vs, id, tenantId).value;
    assert rows[id].createdAt <= first.measured <= last.measured;
    LongerIsLater(first.measured - rows[id].createdAt, last.measured - rows[id].createdAt);
  }

  lemma LongerIsLater(d: int, e: int)
    requires 0 <= d <= e
    ensures 0 <= Milliseconds(d) <= Milliseconds(e)
  {
  }

  lemma {:induction false} LastTerminalSplits(us: seq<Update>, vs: seq<Update>, id: string, tenantId: string)
    ensures LastTerminal(us + vs, id, tenantId) ==
      if LastTerminal(vs, id, tenantId).Some? then LastTerminal(vs, id, tenantId) else LastTerminal(us, id, tenantId)
  {
    hide WritesTerminal;
    if vs == [] {
      assert us + vs == us;
    } else {
      assert (us + vs)[..|us + vs| - 1] == us + vs[..|vs| - 1];
      LastTerminalSplits(us, vs[..|vs| - 1], id, tenantId);
    }
  }
}
