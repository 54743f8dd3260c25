/** The row policy from the session's side: what the setting `app.tenant_id` lets a statement read and
    write, said of the rows' tenants themselves. */
module RlsSessions {
  import opened CodeUnits
  import opened Sorting
  import opened RlsPolicy

  /** The setting holds the text of a tenant's uuid. */
  predicate Names(setting: Setting, cast: JsString -> Cast, tenant: Uuid) {
    setting.Value? && setting.text != [] && cast(setting.text) == Uuid(tenant)
  }

  function OwnRows(rows: seq<Row>, tenant: Uuid): seq<Row> {
    Filter(rows, (row: Row) => row.tenant == tenant)
  }

  predicate AllOf(rows: seq<Row>, tenant: Uuid) {
    forall row | row in rows :: row.tenant == tenant
  }

  // ----- One statement

  /** A session that names a tenant sees that tenant's rows, all of them and in order. */
  lemma SettingShowsOwnRows(setting: Setting, cast: JsString -> Cast, rows: seq<Row>, tenant: Uuid)
    requires Names(setting, cast, tenant)
    ensures View(rows, CurrentTenant(setting, cast)) == OwnRows(rows, tenant)
  {
    var current := CurrentTenant(setting, cast);
    FilterAgrees(rows, (row: Row) => Visible(row, current), (row: Row) => row.tenant == tenant);
  }

  /** An INSERT appends its rows if they are all the tenant's, and is refused otherwise. */
  lemma InsertUnderSetting(setting: Setting, cast: JsString -> Cast, rows: seq<Row>, tenant: Uuid,
                           from: seq<Row> -> seq<Row>)
    requires Names(setting, cast, tenant)
    ensures var added := from(OwnRows(rows, tenant));
      Attempt(CurrentTenant(setting, cast), rows, Insert(from))
        == if AllOf(added, tenant) then Done(rows + added) else Refused
  {
    SettingShowsOwnRows(setting, cast, rows, tenant);
    var current, added := CurrentTenant(setting, cast), from(OwnRows(rows, tenant));
    assert (forall row | row in added :: Visible(row, current)) == AllOf(added, tenant);
  }

  /** An UPDATE replaces, in place, the tenant's rows that it selects, if what it makes of them is the
      tenant's, and is refused otherwise. */
  lemma UpdateUnderSetting(setting: Setting, cast: JsString -> Cast, rows: seq<Row>, tenant: Uuid,
                           where: (seq<Row>, Row) -> bool, set_: (seq<Row>, Row) -> Row)
    requires Names(setting, cast, tenant)
    ensures var own := OwnRows(rows, tenant);
      var result := Attempt(CurrentTenant(setting, cast), rows, Update(where, set_));
      && (result.Refused? <==> exists row | row in own && where(own, row) :: set_(own, row).tenant != tenant)
      && (result.Done? ==>
            && |result.rows| == |rows|
            && forall i | 0 <= i < |rows| ::
                 result.rows[i]
                   == if rows[i].tenant == tenant && where(own, rows[i]) then set_(own, rows[i]) else rows[i])
  {
    SettingShowsOwnRows(setting, cast, rows, tenant);
    var current, own := CurrentTenant(setting, cast), OwnRows(rows, tenant);
    assert forall row :: Visible(row, current) <==> row.tenant == tenant;
  }

  /** A DELETE removes exactly the tenant's rows that it selects. */
  lemma DeleteUnderSetting(setting: Setting, cast: JsString -> Cast, rows: seq<Row>, tenant: Uuid,
                           where: (seq<Row>, Row) -> bool)
    requires Names(setting, cast, tenant)
    ensures var own := OwnRows(rows, tenant);
      Attempt(CurrentTenant(setting, cast), rows, Delete(where))
        == Done(Filter(rows, (row: Row) => !(row.tenant == tenant && where(own, row))))
  {
    SettingShowsOwnRows(setting, cast, rows, tenant);
    var current, own := CurrentTenant(setting, cast), OwnRows(rows, tenant);
    FilterAgrees(rows, (row: Row) => !(Visible(row, current) && where(own, row)),
                 (row: Row) => !(row.tenant == tenant && where(own, row)));
  }

  /** A setting that is not a uuid refuses every statement; one that is unset or empty refuses only an
      INSERT of rows. */
  lemma RefusedWithoutTenant(setting: Setting, cast: JsString -> Cast, rows: seq<Row>, statement: Statement)
    ensures setting.Value? && setting.text != [] && cast(setting.text).Malformed? ==>
      Attempt(CurrentTenant(setting, cast), rows, statement).Refused?
    ensures setting.Unset? || setting.text == [] ==>
      var result := Attempt(CurrentTenant(setting, cast), rows, statement);
      (result.Refused? <==> statement.Insert? && statement.from([]) != [])
  {
    var current := CurrentTenant(setting, cast);
    ViewIsEmpty(rows, CurrentTenant(Unset, cast));
    if statement.Insert? && statement.from([]) != [] {
      assert statement.from([])[0] in statement.from([]);
    }
  }

  // ----- Who is confined

  /** No statement of the role changes what another tenant sees. */
  ghost predicate Confined(flags: Flags, role: Role) {
    forall rows, current, statement, other | current != Tenant(other) ::
      View(Settle(AttemptAs(flags, Request(role, current, statement), rows), rows), Tenant(other))
        == View(rows, Tenant(other))
  }

  /** A role is confined exactly on a table with row-level security enabled, unless it is a superuser or
      bypasses row-level security, or owns a table on which it is not forced. */
  lemma ConfinedIff(flags: Flags, role: Role)
    ensures Confined(flags, role)
       <==> flags.enabled && !role.superuser && !role.bypassRls && (role.owner ==> flags.forced)
  {
    if Filtered(flags, role) {
      forall rows, current, statement, other | current != Tenant(other)
        ensures View(Settle(AttemptAs(flags, Request(role, current, statement), rows), rows), Tenant(other))
             == View(rows, Tenant(other))
      {
        StatementIsConfined(current, rows, statement, other);
      }
    } else {
      var rows, request := UnfilteredRoleInterferes(flags, role, Null, 0);
      assert request == Request(role, Null, request.statement);
    }
  }

  // ----- Runs of sessions

  datatype Call = Call(role: Role, setting: Setting, statement: Statement)

  function RequestOf(call: Call, cast: JsString -> Cast): Request {
    Request(call.role, CurrentTenant(call.setting, cast), call.statement)
  }

  function RequestsOf(calls: seq<Call>, cast: JsString -> Cast): seq<Request> {
    seq(|calls|, i requires 0 <= i < |calls| => RequestOf(calls[i], cast))
  }

  function OwnCalls(calls: seq<Call>, cast: JsString -> Cast, tenant: Uuid): seq<Call> {
    Filter(calls, (call: Call) => Names(call.setting, cast, tenant))
  }

  /** A call is made for a tenant exactly when its setting names it. */
  lemma {:induction false} OwnCallsAreOwnRequests(calls: seq<Call>, cast: JsString -> Cast, tenant: Uuid)
    ensures RequestsOf(OwnCalls(calls, cast, tenant), cast) == Own(RequestsOf(calls, cast), tenant)
  {
    if calls != [] {
      var rest := calls[1..];
      OwnCallsAreOwnRequests(rest, cast, tenant);
      assert RequestsOf(calls, cast) == [RequestOf(calls[0], cast)] + RequestsOf(rest, cast);
      assert RequestsOf(calls, cast)[1..] == RequestsOf(rest, cast);
      assert Names(calls[0].setting, cast, tenant) <==> RequestOf(calls[0], cast).current == Tenant(tenant);
      var own := OwnCalls(rest, cast, tenant);
      assert RequestsOf([calls[0]] + own, cast) == [RequestOf(calls[0], cast)] + RequestsOf(own, cast);
    }
  }

  /** Non-interference of sessions, over every run on a table with row-level security enabled and roles
      that it covers: a tenant's rows at the end are those that its own calls alone would have left. */
  lemma SessionsDoNotInterfere(flags: Flags, rows: seq<Row>, calls: seq<Call>, cast: JsString -> Cast, tenant: Uuid)
    requires flags.enabled
    requires forall call | call in calls ::
      !call.role.superuser && !call.role.bypassRls && (call.role.owner ==> flags.forced)
    ensures OwnRows(Run(flags, rows, RequestsOf(calls, cast)), tenant)
         == OwnRows(Run(flags, rows, RequestsOf(OwnCalls(calls, cast, tenant), cast)), tenant)
  {
    var requests := RequestsOf(calls, cast);
    forall request | request in requests
      ensures Filtered(flags, request.role)
    {
      var i :| 0 <= i < |requests| && requests[i] == request;
      assert calls[i] in calls;
    }
    NonInterference(flags, rows, rows, requests, tenant);
    OwnCallsAreOwnRequests(calls, cast, tenant);
    ViewIsOwnRows(Run(flags, rows, requests), tenant);
    ViewIsOwnRows(Run(flags, rows, Own(requests, tenant)), tenant);
  }

  lemma ViewIsOwnRows(rows: seq<Row>, tenant: Uuid)
    ensures View(rows, Tenant(tenant)) == OwnRows(rows, tenant)
  {
    FilterAgrees(rows, (row: Row) => Visible(row, Tenant(tenant)), (row: Row) => row.tenant == tenant);
  }
}
