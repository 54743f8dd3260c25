/** Redaction of audit evidence: a recursive rewriting of the evidence tree before it is stored.
    `toLowerCase` is a parameter, since its Unicode tables are not part of this model. */
module Evidence {
  import opened CodeUnits
  import opened Sorting

  /** What a property can hold; `Other` stands for numbers, booleans, null and undefined. */
  datatype Json =
    | Text(value: JsString)
    | Object(fields: seq<Field>)
    | Array(items: seq<Json>)
    | Other(id: int)

  datatype Field = Field(key: JsString, value: Json)

  type Lower = JsString -> JsString

  const MARKER: JsString := Units("***REDACTED***")
  const URL_MARKER: JsString := Units("***REDACTED_URL***")
  const PROTO: JsString := Units("__proto__")
  const MAX_TEXT: nat := 1000

  const SECRETS: seq<JsString> := [
    Units("password"), Units("secret"), Units("privateKey"), Units("apiKey"), Units("token"),
    Units("jwt"), Units("credential"), Units("signingKey"), Units("private_key")]

  const SETTINGS: seq<JsString> := [
    Units("databaseUrl"), Units("DATABASE_URL"), Units("DIRECT_DATABASE_URL"), Units("REDIS_URL"),
    Units("S3_SECRET"), Units("POSTGRES_PASSWORD"), Units("JWT_SECRET"), Units("ENCRYPTION_KEY")]

  const FORBIDDEN: seq<JsString> := SECRETS + SETTINGS

  predicate IsForbidden(key: JsString, lower: Lower) {
    exists word | word in FORBIDDEN :: Includes(lower(key), lower(word))
  }

  predicate HasUrl(text: JsString) {
    || Includes(text, Units("postgres://"))
    || Includes(text, Units("postgresql://"))
    || Includes(text, Units("redis://"))
  }

  // ----- Sizes, for termination

  function Size(value: Json): nat
    decreases value, 0
  {
    match value
    case Object(fields) => 1 + FieldsSize(fields)
    case Array(items) => 1 + ItemsSize(items)
    case _ => 1
  }

  function FieldsSize(fields: seq<Field>): nat
    decreases fields, 1
  {
    if fields == [] then 0
    else FieldsSize(fields[..|fields| - 1]) + Size(fields[|fields| - 1].value)
  }

  function ItemsSize(items: seq<Json>): nat
    decreases items, 1
  {
    if items == [] then 0 else ItemsSize(items[..|items| - 1]) + Size(items[|items| - 1])
  }

  lemma {:induction false} SizeIsPositive(value: Json)
    ensures Size(value) > 0
  {
  }

  // ----- Objects as `Object.entries` lists them

  /** An array's entries: its items under their indices. */
  function Indexed(items: seq<Json>): (fields: seq<Field>)
    ensures |fields| == |items|
    ensures forall i | 0 <= i < |items| :: fields[i] == Field(Decimal(i), items[i])
    ensures FieldsSize(fields) == ItemsSize(items)
  {
    if items == [] then []
    else Indexed(items[..|items| - 1]) + [Field(Decimal(|items| - 1), items[|items| - 1])]
  }

  /** `Object.entries(value)` of a non-null object or array. */
  function Entries(value: Json): (fields: seq<Field>)
    requires value.Object? || value.Array?
    ensures FieldsSize(fields) < Size(value)
  {
    if value.Object? then value.fields else Indexed(value.items)
  }

  function Keys(fields: seq<Field>): seq<JsString> {
    seq(|fields|, i requires 0 <= i < |fields| => fields[i].key)
  }

  /** `object[key] = value`. Assigning `__proto__` sets the prototype and adds no property. */
  function Put(fields: seq<Field>, key: JsString, value: Json): (r: seq<Field>) {
    if key == PROTO then fields
    else if fields == [] then [Field(key, value)]
    else if fields[0].key == key then [Field(key, value)] + fields[1..]
    else [fields[0]] + Put(fields[1..], key, value)
  }

  // ----- The redaction

  function RedactValue(key: JsString, value: Json, lower: Lower): Json
    decreases Size(value), 0
  {
    if IsForbidden(key, lower) then Text(MARKER)
    else if value.Text? then
      if HasUrl(value.value) then Text(URL_MARKER)
      else Text(if |value.value| <= MAX_TEXT then value.value else value.value[..MAX_TEXT])
    else if value.Object? || value.Array? then Object(RedactFields(Entries(value), lower))
    else value
  }

  function RedactFields(fields: seq<Field>, lower: Lower): seq<Field>
    decreases FieldsSize(fields), 1
  {
    if fields == [] then []
    else
      var last := fields[|fields| - 1];
      SizeIsPositive(last.value);
      Put(RedactFields(fields[..|fields| - 1], lower), last.key, RedactValue(last.key, last.value, lower))
  }

  lemma RedactOfSnoc(init: seq<Field>, last: Field, lower: Lower)
    ensures RedactFields(init + [last], lower)
         == Put(RedactFields(init, lower), last.key, RedactValue(last.key, last.value, lower))
  {
    assert (init + [last])[..|init|] == init;
  }

  lemma RedactOneMore(fields: seq<Field>, i: nat, lower: Lower)
    requires i < |fields|
    ensures RedactFields(fields[..i + 1], lower)
         == Put(RedactFields(fields[..i], lower), fields[i].key, RedactValue(fields[i].key, fields[i].value, lower))
  {
    assert fields[..i + 1][..i] == fields[..i];
  }

  /** The redaction as it runs: one pass over the entries, filling a new object. */
  method RedactEvidence(evidence: Json, lower: Lower) returns (redacted: seq<Field>)
    requires evidence.Object? || evidence.Array?
    ensures redacted == RedactFields(Entries(evidence), lower)
    decreases Size(evidence)
  {
    redacted := [];
    var entries := Entries(evidence);
    for i := 0 to |entries|
      invariant redacted == RedactFields(entries[..i], lower)
    {
      var key, value := entries[i].key, entries[i].value;
      var safe := value;
      if IsForbidden(key, lower) {
        safe := Text(MARKER);
      } else if value.Text? {
        if HasUrl(value.value) {
          safe := Text(URL_MARKER);
        } else {
          safe := Text(if |value.value| <= MAX_TEXT then value.value else value.value[..MAX_TEXT]);
        }
      } else if value.Object? || value.Array? {
        EntryIsSmaller(entries, i);
        var inner := RedactEvidence(value, lower);
        safe := Object(inner);
      }
      RedactOneMore(entries, i, lower);
      redacted := Put(redacted, key, safe);
    }
    assert entries[..|entries|] == entries;
  }

  lemma {:induction false} EntryIsSmaller(fields: seq<Field>, i: nat)
    requires i < |fields|
    ensures Size(fields[i].value) <= FieldsSize(fields)
  {
    if i < |fields| - 1 {
      EntryIsSmaller(fields[..|fields| - 1], i);
    }
  }

  // ----- What redaction guarantees

  /** At every depth: a forbidden key carries only the marker, texts are bounded and show no
      connection URL, and arrays have become objects. */
  ghost predicate Safe(fields: seq<Field>, lower: Lower) {
    forall i | 0 <= i < |fields| :: SafeField(fields[i], lower)
  }

  ghost predicate SafeField(field: Field, lower: Lower)
    decreases field
  {
    && (IsForbidden(field.key, lower) ==> field.value == Text(MARKER))
    && (field.value.Text? ==> |field.value.value| <= MAX_TEXT && !HasUrl(field.value.value))
    && !field.value.Array?
    && (field.value.Object? ==>
          forall i | 0 <= i < |field.value.fields| :: SafeField(field.value.fields[i], lower))
  }

  ghost predicate DistinctKeys(fields: seq<Field>) {
    forall i, j | 0 <= i < j < |fields| :: fields[i].key != fields[j].key
  }

  lemma MarkersAreClean()
    ensures !HasUrl(MARKER) && !HasUrl(URL_MARKER)
  {
    NoSuchPart(MARKER, Units("postgres://"));
    NoSuchPart(MARKER, Units("postgresql://"));
    NoSuchPart(MARKER, Units("redis://"));
    NoSuchPart(URL_MARKER, Units("postgres://"));
    NoSuchPart(URL_MARKER, Units("postgresql://"));
    NoSuchPart(URL_MARKER, Units("redis://"));
  }

  lemma NoSuchPart(text: JsString, part: JsString)
    requires part != [] && part[0] !in text
    ensures !Includes(text, part)
  {
    forall i | 0 <= i <= |text|
      ensures !OccursAt(text, part, i)
    {
      assert i + |part| <= |text| ==> text[i..i + |part|][0] == text[i];
    }
  }

  lemma PrefixIncludes(text: JsString, n: nat, part: JsString)
    requires n <= |text| && Includes(text[..n], part)
    ensures Includes(text, part)
  {
    var i :| 0 <= i <= n && OccursAt(text[..n], part, i);
    assert text[..n][i..i + |part|] == text[i..i + |part|];
    assert OccursAt(text, part, i);
  }

  lemma CutKeepsClean(text: JsString, n: nat)
    requires n <= |text| && !HasUrl(text)
    ensures !HasUrl(text[..n])
  {
    forall part | Includes(text[..n], part)
      ensures Includes(text, part)
    {
      PrefixIncludes(text, n, part);
    }
  }

  /** The fields that `Put` leaves: those before, and the one put. */
  lemma {:induction false} PutMembers(fields: seq<Field>, key: JsString, value: Json)
    requires DistinctKeys(fields)
    ensures var r := Put(fields, key, value);
      && DistinctKeys(r)
      && (forall f | f in r :: f in fields || (f == Field(key, value) && key != PROTO))
      && (forall f | f in r :: f.key == key ==> f == Field(key, value) || key == PROTO)
  {
    if key != PROTO && fields != [] && fields[0].key != key {
      var rest := Put(fields[1..], key, value);
      PutMembers(fields[1..], key, value);
      forall j | 0 <= j < |rest|
        ensures rest[j].key != fields[0].key
      {
        assert rest[j] in rest;
      }
    }
  }

  /** Redacting an entry gives a value that redaction no longer changes and that is safe. */
  lemma {:induction false} RedactedValue(key: JsString, value: Json, lower: Lower)
    ensures RedactValue(key, RedactValue(key, value, lower), lower) == RedactValue(key, value, lower)
    ensures SafeField(Field(key, RedactValue(key, value, lower)), lower)
    decreases Size(value), 0
  {
    MarkersAreClean();
    if IsForbidden(key, lower) {
    } else if value.Text? {
      if !HasUrl(value.value) && |value.value| > MAX_TEXT {
        CutKeepsClean(value.value, MAX_TEXT);
      }
    } else if value.Object? || value.Array? {
      RedactedFields(Entries(value), lower);
      FixedFields(RedactFields(Entries(value), lower), lower);
    }
  }

  lemma {:induction false} RedactedFields(fields: seq<Field>, lower: Lower)
    ensures var r := RedactFields(fields, lower);
      && Safe(r, lower) && DistinctKeys(r)
      && (forall f | f in r :: f.key != PROTO && RedactValue(f.key, f.value, lower) == f.value)
    decreases FieldsSize(fields), 1
  {
    if fields != [] {
      var init, last := fields[..|fields| - 1], fields[|fields| - 1];
      SizeIsPositive(last.value);
      RedactedFields(init, lower);
      RedactedValue(last.key, last.value, lower);
      PutMembers(RedactFields(init, lower), last.key, RedactValue(last.key, last.value, lower));
      var r := RedactFields(fields, lower);
      forall f | f in r
        ensures SafeField(f, lower) && f.key != PROTO && RedactValue(f.key, f.value, lower) == f.value
      {
      }
    }
  }

  lemma {:induction false} PutAppends(fields: seq<Field>, key: JsString, value: Json)
    requires key != PROTO && forall f | f in fields :: f.key != key
    ensures Put(fields, key, value) == fields + [Field(key, value)]
  {
    if fields != [] {
      PutAppends(fields[1..], key, value);
    }
  }

  ghost predicate Fixed(fields: seq<Field>, lower: Lower) {
    forall f | f in fields :: f.key != PROTO && RedactValue(f.key, f.value, lower) == f.value
  }

  lemma FixedInit(fields: seq<Field>, lower: Lower)
    requires fields != [] && DistinctKeys(fields) && Fixed(fields, lower)
    ensures var init, last := fields[..|fields| - 1], fields[|fields| - 1];
      && DistinctKeys(init) && Fixed(init, lower)
      && last.key != PROTO && RedactValue(last.key, last.value, lower) == last.value
      && forall f | f in init :: f.key != last.key
  {
    var init, last := fields[..|fields| - 1], fields[|fields| - 1];
    assert last in fields && forall f | f in init :: f in fields;
    forall f | f in init
      ensures f.key != last.key
    {
      var i :| 0 <= i < |init| && init[i] == f;
      assert fields[i] == f;
    }
  }

  lemma {:induction false} FixedFields(fields: seq<Field>, lower: Lower)
    requires DistinctKeys(fields) && Fixed(fields, lower)
    ensures RedactFields(fields, lower) == fields
    decreases |fields|
  {
    if fields != [] {
      var init, last := fields[..|fields| - 1], fields[|fields| - 1];
      assert fields == init + [last];
      FixedInit(fields, lower);
      FixedFields(init, lower);
      RedactOfSnoc(init, last, lower);
      PutAppends(init, last.key, last.value);
    }
  }

  /** Redaction is idempotent and its result is safe at every depth, on every evidence tree and
      for every case folding. */
  lemma RedactionIsIdempotentAndSafe(evidence: Json, lower: Lower)
    requires evidence.Object? || evidence.Array?
    ensures var redacted := RedactFields(Entries(evidence), lower);
      && RedactFields(Entries(Object(redacted)), lower) == redacted
      && Safe(redacted, lower)
  {
    RedactedFields(Entries(evidence), lower);
    FixedFields(RedactFields(Entries(evidence), lower), lower);
  }

  // ----- Which keys survive

  lemma KeysOfSnoc(fields: seq<Field>, field: Field)
    ensures Keys(fields + [field]) == Keys(fields) + [field.key]
  {
  }

  lemma LastKeyIsNew(fields: seq<Field>)
    requires fields != [] && DistinctKeys(fields)
    ensures fields[|fields| - 1].key !in Keys(fields[..|fields| - 1])
    ensures DistinctKeys(fields[..|fields| - 1])
  {
    var init := fields[..|fields| - 1];
    forall i | 0 <= i < |init|
      ensures Keys(init)[i] != fields[|fields| - 1].key
    {
      assert fields[i].key != fields[|fields| - 1].key;
    }
  }

  lemma {:induction false} FilterIsSubset(keys: seq<JsString>, key: JsString)
    requires key !in keys
    ensures key !in Filter(keys, (k: JsString) => k != PROTO)
  {
    FilterMembers(keys, (k: JsString) => k != PROTO, key);
  }

  lemma KeyIsAppended(fields: seq<Field>, key: JsString, value: Json)
    requires key !in Keys(fields) && key != PROTO
    ensures Keys(Put(fields, key, value)) == Keys(fields) + [key]
  {
    forall f | f in fields
      ensures f.key != key
    {
      var i :| 0 <= i < |fields| && fields[i] == f;
      assert Keys(fields)[i] == f.key;
    }
    PutAppends(fields, key, value);
    KeysOfSnoc(fields, Field(key, value));
  }

  /** The keys of a traversed object survive in order, all but `__proto__`. */
  lemma {:induction false} KeysSurvive(fields: seq<Field>, lower: Lower)
    requires DistinctKeys(fields)
    ensures Keys(RedactFields(fields, lower)) == Filter(Keys(fields), (k: JsString) => k != PROTO)
    decreases |fields|
  {
    if fields != [] {
      var init, last := fields[..|fields| - 1], fields[|fields| - 1];
      var before := RedactFields(init, lower);
      LastKeyIsNew(fields);
      KeysSurvive(init, lower);
      assert fields == init + [last];
      KeysOfSnoc(init, last);
      FilterOfSnoc(Keys(init), last.key, (k: JsString) => k != PROTO);
      if last.key != PROTO {
        FilterIsSubset(Keys(init), last.key);
        KeyIsAppended(before, last.key, RedactValue(last.key, last.value, lower));
      }
    }
  }

  /** So redaction keeps exactly the keys of an object exactly when none of them is `__proto__`. */
  lemma KeysPreservedIff(fields: seq<Field>, lower: Lower)
    requires DistinctKeys(fields)
    ensures Keys(RedactFields(fields, lower)) == Keys(fields) <==> PROTO !in Keys(fields)
  {
    KeysSurvive(fields, lower);
    if PROTO in Keys(fields) {
      FilterMembers(Keys(fields), (k: JsString) => k != PROTO, PROTO);
    } else {
      FilterIsSlice(Keys(fields), (k: JsString) => k != PROTO, 0, |Keys(fields)|);
    }
  }

  lemma IndicesAreDistinct(items: seq<Json>)
    ensures DistinctKeys(Indexed(items)) && forall f | f in Indexed(items) :: f.key != PROTO
  {
    var fields := Indexed(items);
    forall i, j | 0 <= i < j < |fields|
      ensures fields[i].key != fields[j].key
    {
      if Decimal(i) == Decimal(j) {
        DecimalIsInjective(i, j);
      }
    }
    forall i | 0 <= i < |fields|
      ensures fields[i].key != PROTO
    {
      DecimalIsNonempty(i);
      assert Decimal(i)[0] in Decimal(i) && PROTO[0] == 95;
    }
  }

  lemma ProtoIsNoKey(fields: seq<Field>)
    requires forall f | f in fields :: f.key != PROTO
    ensures PROTO !in Keys(fields)
  {
    forall i | 0 <= i < |fields|
      ensures Keys(fields)[i] != PROTO
    {
      assert fields[i] in fields;
    }
  }

  lemma IndexKeys(items: seq<Json>)
    ensures Keys(Indexed(items)) == seq(|items|, i requires 0 <= i < |items| => Decimal(i))
  {
  }

  /** An array in the evidence becomes an object whose keys are its indices, in order. */
  lemma ArrayKeys(items: seq<Json>, lower: Lower)
    ensures Keys(RedactFields(Entries(Array(items)), lower))
         == seq(|items|, i requires 0 <= i < |items| => Decimal(i))
  {
    IndicesAreDistinct(items);
    IndexKeys(items);
    ProtoIsNoKey(Indexed(items));
    KeysPreservedIff(Indexed(items), lower);
  }
}
