/** The row-level-security generator: which tables of a schema are covered, and the two scripts
    that turn the policies on and off. */
module RlsScripts {
  import opened CodeUnits
  import opened Sorting
  import opened RlsPolicy

  type Name = JsString

  // ----- Reading the schema

  /** How a model declares `tenantId`. */
  datatype TenantColumn = NoTenant | RequiredUuid | RequiredOther | Optional

  datatype Mapped = NotMapped | Table(name: Name)

  datatype Model = Model(name: Name, table: Mapped, tenant: TenantColumn)

  datatype Pair = Pair(table: Name, model: Name)

  datatype Tables = Refusal | Tables(covered: seq<Pair>, excluded: seq<Pair>)

  predicate IsCovered(model: Model) {
    model.table.Table? && model.tenant == RequiredUuid
  }

  predicate IsExcluded(model: Model) {
    model.table.Table? && model.tenant == Optional
  }

  predicate IsRefused(model: Model) {
    model.table.Table? && model.tenant == RequiredOther
  }

  function PairOf(model: Model): Pair {
    Pair(if model.table.Table? then model.table.name else [], model.name)
  }

  function Pairs(models: seq<Model>, keep: Model -> bool): seq<Pair> {
    if models == [] then []
    else
      var last := models[|models| - 1];
      Pairs(models[..|models| - 1], keep) + (if keep(last) then [PairOf(last)] else [])
  }

  /** The two sorted lists, or the refusal of a tenant column that is not a uuid. `leq` is the
      order on pairs that `sorted` uses. */
  function TablesOf(models: seq<Model>, leq: (Pair, Pair) -> bool): Tables {
    if exists model | model in models :: IsRefused(model) then Refusal
    else Tables(Sort(Pairs(models, IsCovered), leq), Sort(Pairs(models, IsExcluded), leq))
  }

  method ParseTenantTables(models: seq<Model>, leq: (Pair, Pair) -> bool) returns (tables: Tables)
    ensures tables == TablesOf(models, leq)
  {
    var covered, excluded := [], [];
    for i := 0 to |models|
      invariant forall model | model in models[..i] :: !IsRefused(model)
      invariant covered == Pairs(models[..i], IsCovered)
      invariant excluded == Pairs(models[..i], IsExcluded)
    {
      var model := models[i];
      assert models[..i + 1][..i] == models[..i];
      if model.table.Table? {
        if model.tenant == RequiredUuid || model.tenant == RequiredOther {
          if model.tenant != RequiredUuid {
            assert IsRefused(model);
            return Refusal;
          }
          covered := covered + [Pair(model.table.name, model.name)];
        } else if model.tenant == Optional {
          excluded := excluded + [Pair(model.table.name, model.name)];
        }
      }
    }
    assert models[..|models|] == models;
    return Tables(Sort(covered, leq), Sort(excluded, leq));
  }

  // The least number of covered tables for which anything is generated
  const LEAST_COVERED := 20

  /** What the generator writes from: nothing when the schema seems misread. */
  function Generated(models: seq<Model>, leq: (Pair, Pair) -> bool): Tables {
    if |Pairs(models, IsCovered)| < LEAST_COVERED then Refusal else TablesOf(models, leq)
  }

  method Generate(models: seq<Model>, leq: (Pair, Pair) -> bool) returns (tables: Tables)
    requires TotalOrder(leq)
    ensures tables == Generated(models, leq)
  {
    SortIsSorted(Pairs(models, IsCovered), leq);
    assert |multiset(Sort(Pairs(models, IsCovered), leq))| == |multiset(Pairs(models, IsCovered))|;
    tables := ParseTenantTables(models, leq);
    if tables.Tables? && |tables.covered| < LEAST_COVERED {
      return Refusal;
    }
  }

  /** The generator writes its files exactly if no mapped model has a required tenant of another type and
      at least twenty models are covered. */
  lemma GeneratesIff(models: seq<Model>, leq: (Pair, Pair) -> bool)
    ensures Generated(models, leq).Tables? <==>
      && |Filter(models, IsCovered)| >= 20
      && forall model | model in models && model.table.Table? :: model.tenant != RequiredOther
  {
    PairsCounted(models, IsCovered);
  }

  lemma {:induction false} PairsCounted(models: seq<Model>, keep: Model -> bool)
    ensures |Pairs(models, keep)| == |Filter(models, keep)|
  {
    if models != [] {
      var init, last := models[..|models| - 1], models[|models| - 1];
      PairsCounted(init, keep);
      FilterOfSnoc(init, last, keep);
      assert models == init + [last];
    }
  }

  lemma PairsOfSnoc(models: seq<Model>, last: Model, keep: Model -> bool)
    ensures Pairs(models + [last], keep) == Pairs(models, keep) + (if keep(last) then [PairOf(last)] else [])
  {
    assert (models + [last])[..|models|] == models;
  }

  lemma {:induction false} PairsOfAll(models: seq<Model>, keep: Model -> bool)
    requires forall model | model in models :: keep(model)
    ensures |Pairs(models, keep)| == |models|
  {
    if models != [] {
      PairsOfAll(models[..|models| - 1], keep);
    }
  }

  lemma {:induction false} PairsMembers(models: seq<Model>, keep: Model -> bool, pair: Pair)
    ensures pair in Pairs(models, keep)
       <==> exists model | model in models :: keep(model) && PairOf(model) == pair
  {
    if models != [] {
      var init, last := models[..|models| - 1], models[|models| - 1];
      assert models == init + [last];
      PairsMembers(init, keep, pair);
    }
  }

  /** The covered list holds exactly the mapped models with a required uuid tenant, the excluded
      list exactly the mapped models with an optional one; nothing else is listed. */
  lemma ListedExactly(models: seq<Model>, leq: (Pair, Pair) -> bool, pair: Pair)
    requires TotalOrder(leq) && TablesOf(models, leq).Tables?
    ensures pair in TablesOf(models, leq).covered
       <==> Model(pair.model, Table(pair.table), RequiredUuid) in models
    ensures pair in TablesOf(models, leq).excluded
       <==> Model(pair.model, Table(pair.table), Optional) in models
  {
    SameMembers(Pairs(models, IsCovered), leq, pair);
    SameMembers(Pairs(models, IsExcluded), leq, pair);
    PairsMembers(models, IsCovered, pair);
    PairsMembers(models, IsExcluded, pair);
    var c, e := Model(pair.model, Table(pair.table), RequiredUuid), Model(pair.model, Table(pair.table), Optional);
    assert IsCovered(c) && PairOf(c) == pair && IsExcluded(e) && PairOf(e) == pair;
    assert forall m: Model :: IsCovered(m) && PairOf(m) == pair ==> m == c;
    assert forall m: Model :: IsExcluded(m) && PairOf(m) == pair ==> m == e;
  }

  /** How many of the models to keep give a pair. */
  function Giving(models: seq<Model>, keep: Model -> bool, pair: Pair): nat {
    |Filter(models, (model: Model) => keep(model) && PairOf(model) == pair)|
  }

  /** The lists are in the order of `sorted`, and hold a pair once for each model that gives it. */
  lemma ListsAreSorted(models: seq<Model>, leq: (Pair, Pair) -> bool, pair: Pair)
    requires TotalOrder(leq) && TablesOf(models, leq).Tables?
    ensures Ascending(TablesOf(models, leq).covered, leq) && Ascending(TablesOf(models, leq).excluded, leq)
    ensures multiset(TablesOf(models, leq).covered)[pair] == Giving(models, IsCovered, pair)
    ensures multiset(TablesOf(models, leq).excluded)[pair] == Giving(models, IsExcluded, pair)
  {
    ListIsSorted(models, IsCovered, leq, pair);
    ListIsSorted(models, IsExcluded, leq, pair);
  }

  lemma ListIsSorted(models: seq<Model>, keep: Model -> bool, leq: (Pair, Pair) -> bool, pair: Pair)
    requires TotalOrder(leq)
    ensures Ascending(Sort(Pairs(models, keep), leq), leq)
    ensures multiset(Sort(Pairs(models, keep), leq))[pair] == Giving(models, keep, pair)
  {
    SortIsSorted(Pairs(models, keep), leq);
    PairsCount(models, keep, pair);
  }

  lemma SameMembers(pairs: seq<Pair>, leq: (Pair, Pair) -> bool, pair: Pair)
    requires TotalOrder(leq)
    ensures pair in Sort(pairs, leq) <==> pair in pairs
  {
    SortIsSorted(pairs, leq);
    assert pair in Sort(pairs, leq) <==> pair in multiset(Sort(pairs, leq));
    assert pair in pairs <==> pair in multiset(pairs);
  }

  lemma GivingOfSnoc(models: seq<Model>, last: Model, keep: Model -> bool, pair: Pair)
    ensures Giving(models + [last], keep, pair)
         == Giving(models, keep, pair) + (if keep(last) && PairOf(last) == pair then 1 else 0)
  {
    FilterOfSnoc(models, last, (model: Model) => keep(model) && PairOf(model) == pair);
  }

  lemma {:induction false} PairsCount(models: seq<Model>, keep: Model -> bool, pair: Pair)
    ensures multiset(Pairs(models, keep))[pair] == Giving(models, keep, pair)
  {
    if models != [] {
      var init, last := models[..|models| - 1], models[|models| - 1];
      PairsCount(init, keep, pair);
      GivingOfSnoc(init, last, keep, pair);
      PairsOfSnoc(init, last, keep);
      assert models == init + [last];
    }
  }

  /** The generated lists do not depend on the order of the models in the schema. */
  lemma OutputIgnoresModelOrder(a: seq<Model>, b: seq<Model>, leq: (Pair, Pair) -> bool)
    requires TotalOrder(leq) && multiset(a) == multiset(b)
    ensures TablesOf(a, leq) == TablesOf(b, leq)
  {
    forall model
      ensures model in a <==> model in b
    {
      assert model in a <==> model in multiset(a);
      assert model in b <==> model in multiset(b);
    }
    SamePairs(a, b, IsCovered);
    SamePairs(a, b, IsExcluded);
    SortIgnoresOrder(Pairs(a, IsCovered), Pairs(b, IsCovered), leq);
    SortIgnoresOrder(Pairs(a, IsExcluded), Pairs(b, IsExcluded), leq);
  }

  lemma SamePairs(a: seq<Model>, b: seq<Model>, keep: Model -> bool)
    requires multiset(a) == multiset(b)
    ensures multiset(Pairs(a, keep)) == multiset(Pairs(b, keep))
  {
    forall pair
      ensures multiset(Pairs(a, keep))[pair] == multiset(Pairs(b, keep))[pair]
    {
      var p := (model: Model) => keep(model) && PairOf(model) == pair;
      PairsCount(a, keep, pair);
      PairsCount(b, keep, pair);
      FilterIgnoresOrder(a, b, p);
      assert |multiset(Filter(a, p))| == |multiset(Filter(b, p))|;
    }
  }

  // ----- The scripts

  datatype Alter = Enable(table: Name) | Force(table: Name) | NoForce(table: Name) | Disable(table: Name)

  type Catalog = map<Name, Flags>

  function EnableScript(covered: seq<Name>): seq<Alter> {
    if covered == [] then []
    else [Enable(covered[0]), Force(covered[0])] + EnableScript(covered[1..])
  }

  function DisableScript(covered: seq<Name>): seq<Alter> {
    if covered == [] then []
    else [NoForce(covered[0]), Disable(covered[0])] + DisableScript(covered[1..])
  }

  function Altered(flags: Flags, alter: Alter): Flags {
    match alter
    case Enable(_) => flags.(enabled := true)
    case Force(_) => flags.(forced := true)
    case NoForce(_) => flags.(forced := false)
    case Disable(_) => flags.(enabled := false)
  }

  /** One statement; a table that does not exist is an error and changes nothing. */
  function Step(catalog: Catalog, alter: Alter): Catalog {
    if alter.table in catalog then catalog[alter.table := Altered(catalog[alter.table], alter)]
    else catalog
  }

  function RunScript(catalog: Catalog, script: seq<Alter>): Catalog {
    if script == [] then catalog else RunScript(Step(catalog, script[0]), script[1..])
  }

  /** The catalog with the given flags on the covered tables. */
  function SetAll(catalog: Catalog, covered: seq<Name>, flags: Flags): Catalog {
    map table | table in catalog :: if table in covered then flags else catalog[table]
  }

  const ON: Flags := Flags(true, true)
  const OFF: Flags := Flags(false, false)

  lemma {:induction false} RunOfConcat(catalog: Catalog, a: seq<Alter>, b: seq<Alter>)
    ensures RunScript(catalog, a + b) == RunScript(RunScript(catalog, a), b)
    decreases |a|
  {
    if a == [] {
      assert a + b == b;
    } else {
      assert (a + b)[1..] == a[1..] + b;
      RunOfConcat(Step(catalog, a[0]), a[1..], b);
    }
  }

  lemma TwoSteps(catalog: Catalog, a: Alter, b: Alter, rest: seq<Alter>)
    ensures RunScript(catalog, [a, b] + rest) == RunScript(Step(Step(catalog, a), b), rest)
  {
    assert ([a, b] + rest)[1..] == [b] + rest;
    assert ([b] + rest)[1..] == rest;
  }

  /** Whatever the catalog was, the enable script ends with the covered tables on. */
  lemma {:induction false} EnableSetsOn(catalog: Catalog, covered: seq<Name>)
    ensures RunScript(catalog, EnableScript(covered)) == SetAll(catalog, covered, ON)
    decreases |covered|
  {
    if covered == [] {
      assert SetAll(catalog, covered, ON) == catalog;
    } else {
      var t := covered[0];
      TwoSteps(catalog, Enable(t), Force(t), EnableScript(covered[1..]));
      var after := Step(Step(catalog, Enable(t)), Force(t));
      EnableSetsOn(after, covered[1..]);
      assert SetAll(after, covered[1..], ON) == SetAll(catalog, covered, ON);
    }
  }

  /** Whatever the catalog was, the disable script ends with the covered tables off. */
  lemma {:induction false} DisableSetsOff(catalog: Catalog, covered: seq<Name>)
    ensures RunScript(catalog, DisableScript(covered)) == SetAll(catalog, covered, OFF)
    decreases |covered|
  {
    if covered == [] {
      assert SetAll(catalog, covered, OFF) == catalog;
    } else {
      var t := covered[0];
      TwoSteps(catalog, NoForce(t), Disable(t), DisableScript(covered[1..]));
      var after := Step(Step(catalog, NoForce(t)), Disable(t));
      DisableSetsOff(after, covered[1..]);
      assert SetAll(after, covered[1..], OFF) == SetAll(catalog, covered, OFF);
    }
  }

  predicate Touches(script: seq<Alter>, covered: seq<Name>) {
    forall alter | alter in script :: alter.table in covered
  }

  lemma {:induction false} ScriptsTouchCovered(covered: seq<Name>)
    ensures Touches(EnableScript(covered), covered) && Touches(DisableScript(covered), covered)
  {
    if covered != [] {
      ScriptsTouchCovered(covered[1..]);
    }
  }

  /** A script over covered tables leaves every other table alone. */
  lemma {:induction false} OthersUntouched(catalog: Catalog, script: seq<Alter>, covered: seq<Name>)
    requires Touches(script, covered)
    ensures RunScript(catalog, script).Keys == catalog.Keys
    ensures forall table | table in catalog && table !in covered ::
      RunScript(catalog, script)[table] == catalog[table]
    decreases |script|
  {
    if script != [] {
      assert script[0] in script;
      OthersUntouched(Step(catalog, script[0]), script[1..], covered);
    }
  }

  /** Enabling can be interrupted anywhere: after any prefix of the enable script, running the
      disable script gives what it gives from the start, which is the start itself when the
      covered tables were off. The same holds the other way round. */
  lemma InverseFromAnyInterruption(catalog: Catalog, covered: seq<Name>, k: nat)
    requires k <= |EnableScript(covered)|
    ensures RunScript(RunScript(catalog, EnableScript(covered)[..k]), DisableScript(covered))
         == RunScript(catalog, DisableScript(covered))
    ensures (forall table | table in covered && table in catalog :: catalog[table] == OFF) ==>
      RunScript(RunScript(catalog, EnableScript(covered)[..k]), DisableScript(covered)) == catalog
  {
    var middle := RunScript(catalog, EnableScript(covered)[..k]);
    ScriptsTouchCovered(covered);
    OthersUntouched(catalog, EnableScript(covered)[..k], covered);
    DisableSetsOff(middle, covered);
    DisableSetsOff(catalog, covered);
    assert SetAll(middle, covered, OFF) == SetAll(catalog, covered, OFF);
  }

  lemma ReenableFromAnyInterruption(catalog: Catalog, covered: seq<Name>, k: nat)
    requires k <= |DisableScript(covered)|
    ensures RunScript(RunScript(catalog, DisableScript(covered)[..k]), EnableScript(covered))
         == RunScript(catalog, EnableScript(covered))
  {
    var middle := RunScript(catalog, DisableScript(covered)[..k]);
    ScriptsTouchCovered(covered);
    OthersUntouched(catalog, DisableScript(covered)[..k], covered);
    EnableSetsOn(middle, covered);
    EnableSetsOn(catalog, covered);
    assert SetAll(middle, covered, ON) == SetAll(catalog, covered, ON);
  }

  /** Both scripts are idempotent. */
  lemma ScriptsAreIdempotent(catalog: Catalog, covered: seq<Name>)
    ensures RunScript(RunScript(catalog, EnableScript(covered)), EnableScript(covered))
         == RunScript(catalog, EnableScript(covered))
    ensures RunScript(RunScript(catalog, DisableScript(covered)), DisableScript(covered))
         == RunScript(catalog, DisableScript(covered))
  {
    EnableSetsOn(catalog, covered);
    DisableSetsOff(catalog, covered);
    EnableSetsOn(SetAll(catalog, covered, ON), covered);
    DisableSetsOff(SetAll(catalog, covered, OFF), covered);
    assert SetAll(SetAll(catalog, covered, ON), covered, ON) == SetAll(catalog, covered, ON);
    assert SetAll(SetAll(catalog, covered, OFF), covered, OFF) == SetAll(catalog, covered, OFF);
  }

  /** No table is forced without being enabled. */
  ghost predicate Sound(catalog: Catalog) {
    forall table | table in catalog :: catalog[table].forced ==> catalog[table].enabled
  }

  /** Every intermediate state of the enable script keeps forced tables enabled. */
  lemma {:induction false} EnableStaysSound(catalog: Catalog, covered: seq<Name>, k: nat)
    requires Sound(catalog) && k <= |EnableScript(covered)|
    ensures Sound(RunScript(catalog, EnableScript(covered)[..k]))
    decreases |covered|
  {
    if k > 0 {
      var t, script := covered[0], EnableScript(covered);
      var once := Step(catalog, Enable(t));
      if k == 1 {
        assert script[..k] == [Enable(t)];
        assert RunScript(once, [Enable(t)][1..]) == once;
      } else {
        assert script[..k] == [Enable(t), Force(t)] + EnableScript(covered[1..])[..k - 2];
        TwoSteps(catalog, Enable(t), Force(t), EnableScript(covered[1..])[..k - 2]);
        EnableStaysSound(Step(once, Force(t)), covered[1..], k - 2);
      }
    }
  }

  /** So does every intermediate state of the disable script, which drops FORCE first. */
  lemma {:induction false} DisableStaysSound(catalog: Catalog, covered: seq<Name>, k: nat)
    requires Sound(catalog) && k <= |DisableScript(covered)|
    ensures Sound(RunScript(catalog, DisableScript(covered)[..k]))
    decreases |covered|
  {
    if k > 0 {
      var t, script := covered[0], DisableScript(covered);
      var once := Step(catalog, NoForce(t));
      if k == 1 {
        assert script[..k] == [NoForce(t)];
        assert RunScript(once, [NoForce(t)][1..]) == once;
      } else {
        assert script[..k] == [NoForce(t), Disable(t)] + DisableScript(covered[1..])[..k - 2];
        TwoSteps(catalog, NoForce(t), Disable(t), DisableScript(covered[1..])[..k - 2]);
        DisableStaysSound(Step(once, Disable(t)), covered[1..], k - 2);
      }
    }
  }

  /** Tables outside the covered list are the same at every point of both scripts. */
  lemma ExcludedNeverChange(catalog: Catalog, covered: seq<Name>, k: nat, table: Name)
    requires table in catalog && table !in covered
    ensures k <= |EnableScript(covered)| ==>
      RunScript(catalog, EnableScript(covered)[..k]).Keys == catalog.Keys &&
      RunScript(catalog, EnableScript(covered)[..k])[table] == catalog[table]
    ensures k <= |DisableScript(covered)| ==>
      RunScript(catalog, DisableScript(covered)[..k]).Keys == catalog.Keys &&
      RunScript(catalog, DisableScript(covered)[..k])[table] == catalog[table]
  {
    ScriptsTouchCovered(covered);
    if k <= |EnableScript(covered)| {
      OthersUntouched(catalog, EnableScript(covered)[..k], covered);
    }
    if k <= |DisableScript(covered)| {
      OthersUntouched(catalog, DisableScript(covered)[..k], covered);
    }
  }

  /** After the enable script, on every covered table, tenants do not interfere over any run of
      requests by roles that hold neither BYPASSRLS nor superuser, the table owner included. */
  lemma EnabledTablesAreIsolated(catalog: Catalog, covered: seq<Name>, table: Name,
                                 rows: seq<Row>, log: seq<Request>, tenant: Uuid)
    requires table in catalog && table in covered
    requires forall request | request in log :: !request.role.superuser && !request.role.bypassRls
    ensures var after := RunScript(catalog, EnableScript(covered));
      && table in after
      && View(Run(after[table], rows, log), Tenant(tenant))
           == View(Run(after[table], rows, Own(log, tenant)), Tenant(tenant))
  {
    EnableSetsOn(catalog, covered);
    NonInterference(ON, rows, rows, log, tenant);
  }
}
