/** What the generated row policy means: a tenant's statements on a table, filtered by the tenant
    that the session's setting names. */
module RlsPolicy {
  import opened CodeUnits
  import opened Sorting

  type Uuid = nat
  datatype Row = Row(id: int, tenant: Uuid, data: int)

  // ----- The policy function

  datatype Setting = Unset | Value(text: JsString)
  datatype Cast = Uuid(uuid: Uuid) | Malformed

  /** The policy function's result: NULL, a tenant, or the error of a failed cast. */
  datatype Current = Null | Tenant(uuid: Uuid) | CastError

  /** `nullif(current_setting('app.tenant_id', true), '')::uuid` */
  function CurrentTenant(setting: Setting, cast: JsString -> Cast): Current {
    if setting.Unset? || setting.text == [] then Null
    else match cast(setting.text)
      case Uuid(uuid) => Tenant(uuid)
      case Malformed => CastError
  }

  /** `tenant_id = current()`, which is never true for NULL. */
  predicate Visible(row: Row, current: Current) {
    current.Tenant? && row.tenant == current.uuid
  }

  function View(rows: seq<Row>, current: Current): seq<Row> {
    Filter(rows, (row: Row) => Visible(row, current))
  }

  // ----- Who is filtered

  datatype Flags = Flags(enabled: bool, forced: bool)
  datatype Role = Role(superuser: bool, bypassRls: bool, owner: bool)
  predicate Filtered(flags: Flags, role: Role) {
    flags.enabled && !role.superuser && !role.bypassRls && (role.owner ==> flags.forced)
  }

  // ----- Statements

  /** Statements may compute with every row they can read. */
  datatype Statement =
    | Insert(from: seq<Row> -> seq<Row>)
    | Update(where: (seq<Row>, Row) -> bool, set_: (seq<Row>, Row) -> Row)
    | Delete(where: (seq<Row>, Row) -> bool)

  datatype Result = Done(rows: seq<Row>) | Refused

  function Map(rows: seq<Row>, f: Row -> Row): seq<Row> {
    seq(|rows|, i requires 0 <= i < |rows| => f(rows[i]))
  }

  /** A statement under USING and WITH CHECK. A row that fails the check refuses the statement. */
  function Attempt(current: Current, rows: seq<Row>, statement: Statement): Result {
    if current.CastError? then Refused
    else
      var view := View(rows, current);
      match statement
      case Insert(from) =>
        if forall row | row in from(view) :: Visible(row, current) then Done(rows + from(view))
        else Refused
      case Update(where, set_) =>
        if forall row | row in view && where(view, row) :: Visible(set_(view, row), current) then
          Done(Map(rows, (row: Row) =>
            if Visible(row, current) && where(view, row) then set_(view, row) else row))
        else Refused
      case Delete(where) =>
        Done(Filter(rows, (row: Row) => !(Visible(row, current) && where(view, row))))
  }

  /** The same statement for a role that the policy does not filter. */
  function AttemptUnfiltered(rows: seq<Row>, statement: Statement): Result {
    match statement
    case Insert(from) => Done(rows + from(rows))
    case Update(where, set_) =>
      Done(Map(rows, (row: Row) => if where(rows, row) then set_(rows, row) else row))
    case Delete(where) => Done(Filter(rows, (row: Row) => !where(rows, row)))
  }

  datatype Request = Request(role: Role, current: Current, statement: Statement)

  function AttemptAs(flags: Flags, request: Request, rows: seq<Row>): Result {
    if Filtered(flags, request.role) then Attempt(request.current, rows, request.statement)
    else AttemptUnfiltered(rows, request.statement)
  }

  /** A refused statement leaves the table as it was. */
  function Settle(result: Result, rows: seq<Row>): seq<Row> {
    if result.Done? then result.rows else rows
  }

  function Execute(current: Current, rows: seq<Row>, statement: Statement): seq<Row> {
    Settle(Attempt(current, rows, statement), rows)
  }

  function Run(flags: Flags, rows: seq<Row>, log: seq<Request>): seq<Row>
    decreases |log|
  {
    if log == [] then rows
    else Run(flags, Settle(AttemptAs(flags, log[0], rows), rows), log[1..])
  }

  /** Which requests of one tenant were refused, in order. */
  function Refusals(flags: Flags, rows: seq<Row>, log: seq<Request>, tenant: Uuid): seq<bool>
    decreases |log|
  {
    if log == [] then []
    else
      var result := AttemptAs(flags, log[0], rows);
      (if log[0].current == Tenant(tenant) then [result.Refused?] else [])
        + Refusals(flags, Settle(result, rows), log[1..], tenant)
  }

  // ----- Filtering

  lemma {:induction false} ViewOfConcat(a: seq<Row>, b: seq<Row>, current: Current)
    ensures View(a + b, current) == View(a, current) + View(b, current)
  {
    if a == [] {
      assert a + b == b;
    } else {
      assert (a + b)[1..] == a[1..] + b;
      ViewOfConcat(a[1..], b, current);
    }
  }

  lemma {:induction false} ViewIsEmpty(rows: seq<Row>, current: Current)
    requires forall row | row in rows :: !Visible(row, current)
    ensures View(rows, current) == []
  {
    if rows != [] {
      ViewIsEmpty(rows[1..], current);
    }
  }

  lemma {:induction false} ViewIsAll(rows: seq<Row>, current: Current)
    requires forall row | row in rows :: Visible(row, current)
    ensures View(rows, current) == rows
  {
    if rows != [] {
      ViewIsAll(rows[1..], current);
    }
  }

  /** A map that keeps each row's visibility can be applied before or after looking. */
  lemma {:induction false} ViewOfMap(rows: seq<Row>, f: Row -> Row, current: Current)
    requires forall row | row in rows :: Visible(f(row), current) == Visible(row, current)
    ensures View(Map(rows, f), current) == Map(View(rows, current), f)
  {
    if rows != [] {
      ViewOfMap(rows[1..], f, current);
      assert Map(rows, f) == [f(rows[0])] + Map(rows[1..], f);
      assert rows[0] in rows;
      var rest := View(rows[1..], current);
      assert Map([rows[0]] + rest, f) == [f(rows[0])] + Map(rest, f);
    }
  }

  lemma {:induction false} FilterTwice(rows: seq<Row>, p: Row -> bool, q: Row -> bool)
    ensures Filter(Filter(rows, p), q) == Filter(rows, (row: Row) => p(row) && q(row))
  {
    if rows != [] {
      FilterTwice(rows[1..], p, q);
    }
  }

  lemma ViewOfFilter(rows: seq<Row>, keep: Row -> bool, current: Current)
    ensures View(Filter(rows, keep), current) == Filter(View(rows, current), keep)
  {
    var sees := (row: Row) => Visible(row, current);
    FilterTwice(rows, keep, sees);
    FilterTwice(rows, sees, keep);
    FilterAgrees(rows, (row: Row) => keep(row) && sees(row), (row: Row) => sees(row) && keep(row));
  }

  // ----- One statement

  /** A statement under one tenant leaves every other tenant's view as it was. */
  lemma StatementIsConfined(current: Current, rows: seq<Row>, statement: Statement, other: Uuid)
    requires current != Tenant(other)
    ensures View(Execute(current, rows, statement), Tenant(other)) == View(rows, Tenant(other))
  {
    var result := Attempt(current, rows, statement);
    if result.Done? {
      var view := View(rows, current);
      match statement
      case Insert(from) =>
        ViewOfConcat(rows, from(view), Tenant(other));
        ViewIsEmpty(from(view), Tenant(other));
      case Update(where, set_) =>
        UpdateIsConfined(current, rows, where, set_, other);
      case Delete(where) =>
        var keep := (row: Row) => !(Visible(row, current) && where(view, row));
        ViewOfFilter(rows, keep, Tenant(other));
        KeepsAll(View(rows, Tenant(other)), keep, rows, Tenant(other));
    }
  }

  lemma {:induction false} KeepsAll(view: seq<Row>, keep: Row -> bool, rows: seq<Row>, current: Current)
    requires view == View(rows, current)
    requires forall row | Visible(row, current) :: keep(row)
    ensures Filter(view, keep) == view
  {
    forall row | row in view
      ensures Visible(row, current)
    {
      FilterMembers(rows, (r: Row) => Visible(r, current), row);
    }
    FilterIsSlice(view, keep, 0, |view|);
  }

  lemma UpdateIsConfined(current: Current, rows: seq<Row>, where: (seq<Row>, Row) -> bool,
                         set_: (seq<Row>, Row) -> Row, other: Uuid)
    requires current != Tenant(other) && Attempt(current, rows, Update(where, set_)).Done?
    ensures View(Execute(current, rows, Update(where, set_)), Tenant(other)) == View(rows, Tenant(other))
  {
    var view := View(rows, current);
    var f := (row: Row) => if Visible(row, current) && where(view, row) then set_(view, row) else row;
    forall row | row in rows
      ensures Visible(f(row), Tenant(other)) == Visible(row, Tenant(other))
    {
      FilterMembers(rows, (r: Row) => Visible(r, current), row);
    }
    ViewOfMap(rows, f, Tenant(other));
    var seen := View(rows, Tenant(other));
    forall i | 0 <= i < |seen|
      ensures Map(seen, f)[i] == seen[i]
    {
      FilterMembers(rows, (r: Row) => Visible(r, Tenant(other)), seen[i]);
    }
  }

  /** What a statement does to its own tenant's view, and whether it is refused, depends on that
      view only. */
  lemma OwnViewDecides(tenant: Uuid, a: seq<Row>, b: seq<Row>, statement: Statement)
    requires View(a, Tenant(tenant)) == View(b, Tenant(tenant))
    ensures Attempt(Tenant(tenant), a, statement).Refused? == Attempt(Tenant(tenant), b, statement).Refused?
    ensures View(Execute(Tenant(tenant), a, statement), Tenant(tenant))
         == View(Execute(Tenant(tenant), b, statement), Tenant(tenant))
  {
    OwnEffect(tenant, a, statement);
    OwnEffect(tenant, b, statement);
  }

  /** The same statement run on the view alone. */
  function OnView(view: seq<Row>, statement: Statement): seq<Row> {
    match statement
    case Insert(from) => view + from(view)
    case Update(where, set_) =>
      Map(view, (row: Row) => if where(view, row) then set_(view, row) else row)
    case Delete(where) => Filter(view, (row: Row) => !where(view, row))
  }

  lemma OwnEffect(tenant: Uuid, rows: seq<Row>, statement: Statement)
    ensures var own := Tenant(tenant);
      View(Execute(own, rows, statement), own) ==
        if Attempt(own, rows, statement).Done? then OnView(View(rows, own), statement) else View(rows, own)
  {
    var own := Tenant(tenant);
    var view := View(rows, own);
    if Attempt(own, rows, statement).Done? {
      match statement
      case Insert(from) =>
        ViewOfConcat(rows, from(view), own);
        ViewIsAll(from(view), own);
      case Update(where, set_) =>
        OwnUpdate(tenant, rows, where, set_);
      case Delete(where) =>
        ViewOfFilter(rows, (row: Row) => !(Visible(row, own) && where(view, row)), own);
        SeenRowsAreVisible(rows, own);
        FilterAgrees(view, (row: Row) => !(Visible(row, own) && where(view, row)),
                     (row: Row) => !where(view, row));
    }
  }

  lemma SeenRowsAreVisible(rows: seq<Row>, current: Current)
    ensures forall row | row in View(rows, current) :: Visible(row, current)
  {
    forall row | row in View(rows, current)
      ensures Visible(row, current)
    {
      FilterMembers(rows, (r: Row) => Visible(r, current), row);
    }
  }

  lemma OwnUpdate(tenant: Uuid, rows: seq<Row>, where: (seq<Row>, Row) -> bool,
                  set_: (seq<Row>, Row) -> Row)
    requires Attempt(Tenant(tenant), rows, Update(where, set_)).Done?
    ensures var own := Tenant(tenant);
      View(Execute(own, rows, Update(where, set_)), own) == OnView(View(rows, own), Update(where, set_))
  {
    var own := Tenant(tenant);
    var view := View(rows, own);
    var f := (row: Row) => if Visible(row, own) && where(view, row) then set_(view, row) else row;
    forall row | row in rows
      ensures Visible(f(row), own) == Visible(row, own)
    {
      FilterMembers(rows, (r: Row) => Visible(r, own), row);
    }
    ViewOfMap(rows, f, own);
    SeenRowsAreVisible(rows, own);
    forall i | 0 <= i < |view|
      ensures f(view[i]) == if where(view, view[i]) then set_(view, view[i]) else view[i]
    {
      assert view[i] in view;
    }
  }

  lemma NothingPasses(rows: seq<Row>, current: Current)
    requires !current.Tenant? && forall row | row in rows :: Visible(row, current)
    ensures rows == []
  {
    ViewIsAll(rows, current);
    ViewIsEmpty(rows, current);
  }

  /** A session whose setting is unset, empty or not a uuid sees nothing and changes nothing. */
  lemma NoTenantIsInert(setting: Setting, cast: JsString -> Cast, rows: seq<Row>, statement: Statement)
    requires setting.Unset? || setting.text == [] || cast(setting.text).Malformed?
    ensures var current := CurrentTenant(setting, cast);
      View(rows, current) == [] && Execute(current, rows, statement) == rows
  {
    var current := CurrentTenant(setting, cast);
    ViewIsEmpty(rows, current);
    if Attempt(current, rows, statement).Done? {
      match statement
      case Insert(from) =>
        NothingPasses(from([]), current);
      case Update(where, set_) =>
        assert Map(rows, (row: Row) => if Visible(row, current) && where([], row) then set_([], row) else row) == rows;
      case Delete(where) =>
        FilterIsSlice(rows, (row: Row) => !(Visible(row, current) && where([], row)), 0, |rows|);
    }
  }

  /** Without filtering there is no isolation: a role that the policy does not filter can change
      what another tenant sees, whatever tenant its session names. */
  lemma UnfilteredRoleInterferes(flags: Flags, role: Role, current: Current, other: Uuid)
    returns (rows: seq<Row>, request: Request)
    requires !Filtered(flags, role)
    ensures request.role == role && request.current == current
    ensures View(Settle(AttemptAs(flags, request, rows), rows), Tenant(other)) != View(rows, Tenant(other))
  {
    rows := [Row(0, other, 0)];
    request := Request(role, current, Delete((_, _) => true));
    ViewIsAll(rows, Tenant(other));
    FilterIsSlice(rows, (row: Row) => !request.statement.where(rows, row), 0, 0);
    FilterAgrees(rows, (row: Row) => !request.statement.where(rows, row), (row: Row) => false);
    assert Settle(AttemptAs(flags, request, rows), rows) == [];
  }

  /** What no policy filters acts on the whole table as a tenant's statement acts on a table that is all
      its own, whenever the policy lets that statement through. */
  lemma UnfilteredActsOnAll(tenant: Uuid, rows: seq<Row>, statement: Statement)
    requires forall row | row in rows :: row.tenant == tenant
    ensures var result := Attempt(Tenant(tenant), rows, statement);
      result.Done? ==> AttemptUnfiltered(rows, statement) == result
  {
    var current := Tenant(tenant);
    ViewIsAll(rows, current);
    match statement
    case Insert(from) =>
    case Update(where, set_) =>
    case Delete(where) =>
      FilterAgrees(rows, (row: Row) => !(Visible(row, current) && where(rows, row)), (row: Row) => !where(rows, row));
  }

  // ----- Runs

  function Own(log: seq<Request>, tenant: Uuid): seq<Request> {
    Filter(log, (request: Request) => request.current == Tenant(tenant))
  }

  /** Non-interference over every run: what a tenant sees at the end, and which of its requests
      were refused, is what it would have been had nobody else sent anything. */
  lemma {:induction false} NonInterference(flags: Flags, rows: seq<Row>, alone: seq<Row>,
                                           log: seq<Request>, tenant: Uuid)
    requires forall request | request in log :: Filtered(flags, request.role)
    requires View(rows, Tenant(tenant)) == View(alone, Tenant(tenant))
    ensures View(Run(flags, rows, log), Tenant(tenant))
         == View(Run(flags, alone, Own(log, tenant)), Tenant(tenant))
    ensures Refusals(flags, rows, log, tenant) == Refusals(flags, alone, Own(log, tenant), tenant)
    decreases |log|
  {
    if log != [] {
      var request := log[0];
      assert request in log && forall later | later in log[1..] :: later in log;
      var after := Execute(request.current, rows, request.statement);
      if request.current == Tenant(tenant) {
        OwnViewDecides(tenant, rows, alone, request.statement);
        NonInterference(flags, after, Execute(request.current, alone, request.statement), log[1..], tenant);
        assert Own(log, tenant) == [request] + Own(log[1..], tenant);
        assert ([request] + Own(log[1..], tenant))[1..] == Own(log[1..], tenant);
      } else {
        StatementIsConfined(request.current, rows, request.statement, tenant);
        NonInterference(flags, after, alone, log[1..], tenant);
      }
    }
  }

  /** In particular a run of requests by others changes nothing for the tenant. */
  lemma OthersChangeNothing(flags: Flags, rows: seq<Row>, log: seq<Request>, tenant: Uuid)
    requires forall request | request in log ::
      Filtered(flags, request.role) && request.current != Tenant(tenant)
    ensures View(Run(flags, rows, log), Tenant(tenant)) == View(rows, Tenant(tenant))
  {
    NonInterference(flags, rows, rows, log, tenant);
    FilterIsSlice(log, (request: Request) => request.current == Tenant(tenant), 0, 0);
  }

  // ----- The tenants' views

  function Union(rows: seq<Row>, tenants: seq<Uuid>): multiset<Row> {
    if tenants == [] then multiset{}
    else multiset(View(rows, Tenant(tenants[0]))) + Union(rows, tenants[1..])
  }

  lemma {:induction false} UnionCounts(rows: seq<Row>, tenants: seq<Uuid>, row: Row)
    requires NoDuplicates(tenants)
    ensures Union(rows, tenants)[row] == if row.tenant in tenants then multiset(rows)[row] else 0
  {
    if tenants != [] {
      UnionCounts(rows, tenants[1..], row);
      FilterCounts(rows, (r: Row) => Visible(r, Tenant(tenants[0])), row);
      if row.tenant == tenants[0] {
        assert forall i | 0 <= i < |tenants[1..]| :: tenants[1..][i] == tenants[i + 1];
      }
    }
  }

  /** The views of all tenants that own a row partition the table. */
  lemma ViewsPartition(rows: seq<Row>, tenants: seq<Uuid>)
    requires NoDuplicates(tenants)
    requires forall row | row in rows :: row.tenant in tenants
    ensures Union(rows, tenants) == multiset(rows)
  {
    forall row
      ensures Union(rows, tenants)[row] == multiset(rows)[row]
    {
      UnionCounts(rows, tenants, row);
      assert row in multiset(rows) ==> row in rows;
    }
  }
}
