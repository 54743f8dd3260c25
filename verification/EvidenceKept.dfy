/** What redaction keeps: which texts come out as they were, what the others become, and that a safe
    tree is returned unchanged. */
module EvidenceKept {
  import opened CodeUnits
  import opened Sorting
  import opened Evidence

  // ----- Field by field

  function RedactedField(field: Field, lower: Lower): Field {
    Field(field.key, RedactValue(field.key, field.value, lower))
  }

  function RedactedEach(fields: seq<Field>, lower: Lower): seq<Field> {
    seq(|fields|, i requires 0 <= i < |fields| => RedactedField(fields[i], lower))
  }

  /** The new object holds, in order, each field but `__proto__`, redacted by itself. */
  lemma {:induction false} FieldsAreRedactedEach(fields: seq<Field>, lower: Lower)
    requires DistinctKeys(fields)
    ensures RedactFields(fields, lower) == RedactedEach(Filter(fields, (f: Field) => f.key != PROTO), lower)
    decreases |fields|
  {
    if fields != [] {
      var init, last := fields[..|fields| - 1], fields[|fields| - 1];
      var kept := Filter(init, (f: Field) => f.key != PROTO);
      assert fields == init + [last];
      FieldsAreRedactedEach(init, lower);
      FilterOfSnoc(init, last, (f: Field) => f.key != PROTO);
      if last.key != PROTO {
        LastIsNew(fields, lower);
        PutAppends(RedactedEach(kept, lower), last.key, RedactValue(last.key, last.value, lower));
        assert RedactedEach(kept + [last], lower) == RedactedEach(kept, lower) + [RedactedField(last, lower)];
      } else {
        assert kept + [] == kept;
      }
    }
  }

  lemma LastIsNew(fields: seq<Field>, lower: Lower)
    requires fields != [] && DistinctKeys(fields)
    ensures var init, last := fields[..|fields| - 1], fields[|fields| - 1];
      forall f | f in RedactedEach(Filter(init, (f: Field) => f.key != PROTO), lower) :: f.key != last.key
  {
    var init, last := fields[..|fields| - 1], fields[|fields| - 1];
    var kept := Filter(init, (f: Field) => f.key != PROTO);
    forall f | f in RedactedEach(kept, lower)
      ensures f.key != last.key
    {
      var i :| 0 <= i < |kept| && RedactedField(kept[i], lower) == f;
      FilterMembers(init, (g: Field) => g.key != PROTO, kept[i]);
      var k :| 0 <= k < |init| && init[k] == kept[i];
      assert fields[k].key != last.key;
    }
  }

  // ----- Value by value

  /** Under an allowed key a text without a connection URL comes out as it was, or as its first 1000
      code units; numbers, booleans and null come out as they were. */
  lemma CleanTextIsKept(key: JsString, value: Json, lower: Lower)
    requires !IsForbidden(key, lower)
    ensures value.Other? ==> RedactValue(key, value, lower) == value
    ensures value.Text? && !HasUrl(value.value) ==>
      var r := RedactValue(key, value, lower);
      && r.Text? && r.value <= value.value
      && |r.value| == if |value.value| < 1000 then |value.value| else 1000
  {
  }

  /** Everything under a forbidden key becomes one marker, a text with a connection URL another. */
  lemma SecretIsReplaced(key: JsString, value: Json, lower: Lower)
    ensures IsForbidden(key, lower) ==> RedactValue(key, value, lower) == Text(Units("***REDACTED***"))
    ensures !IsForbidden(key, lower) && value.Text? && HasUrl(value.value) ==>
      RedactValue(key, value, lower) == Text(Units("***REDACTED_URL***"))
  {
  }

  /** An object under an allowed key becomes the object of its redacted fields. */
  lemma InnerFieldsAreRedacted(key: JsString, fields: seq<Field>, lower: Lower)
    requires !IsForbidden(key, lower) && DistinctKeys(fields)
    ensures RedactValue(key, Object(fields), lower)
         == Object(RedactedEach(Filter(fields, (f: Field) => f.key != PROTO), lower))
  {
    FieldsAreRedactedEach(fields, lower);
  }

  lemma IndexedIsRedactedEach(items: seq<Json>, lower: Lower)
    ensures RedactFields(Indexed(items), lower) == RedactedEach(Indexed(items), lower)
  {
    IndicesAreDistinct(items);
    FieldsAreRedactedEach(Indexed(items), lower);
    FilterIsAll(Indexed(items), (f: Field) => f.key != PROTO);
  }

  /** An array under an allowed key becomes the object of its redacted items under their indices. */
  lemma InnerItemsAreRedacted(key: JsString, items: seq<Json>, lower: Lower)
    requires !IsForbidden(key, lower)
    ensures RedactValue(key, Array(items), lower)
         == Object(seq(|items|, i requires 0 <= i < |items| =>
                         Field(Decimal(i), RedactValue(Decimal(i), items[i], lower))))
  {
    IndexedIsRedactedEach(items, lower);
  }

  // ----- What is a secret

  /** A key that holds one of the words, in any casing that lower-casing maps to it, is forbidden. */
  lemma KeyWithWordIsForbidden(before: JsString, word: JsString, after: JsString, key: JsString, lower: Lower)
    requires exists secret | secret in FORBIDDEN :: lower(secret) == word
    requires lower(key) == before + (word + after)
    ensures IsForbidden(key, lower)
  {
    PartIsIncluded(before, word, after);
    var secret :| secret in FORBIDDEN && lower(secret) == word;
    assert Includes(lower(key), lower(secret));
  }

  /** A field that is named like one of these secrets is replaced, whatever lower-casing does. */
  lemma SecretNamesAreForbidden(name: JsString, lower: Lower)
    requires name in [
      Units("password"), Units("secret"), Units("privateKey"), Units("apiKey"), Units("token"),
      Units("jwt"), Units("credential"), Units("signingKey"), Units("private_key")]
    ensures IsForbidden(name, lower)
  {
    WordIsForbidden(name, lower);
  }

  /** And so is one named like these settings of the platform. */
  lemma SettingNamesAreForbidden(name: JsString, lower: Lower)
    requires name in [
      Units("databaseUrl"), Units("DATABASE_URL"), Units("DIRECT_DATABASE_URL"), Units("REDIS_URL"),
      Units("S3_SECRET"), Units("POSTGRES_PASSWORD"), Units("JWT_SECRET"), Units("ENCRYPTION_KEY")]
    ensures IsForbidden(name, lower)
  {
    WordIsForbidden(name, lower);
  }

  lemma WordIsForbidden(word: JsString, lower: Lower)
    requires word in SECRETS || word in SETTINGS
    ensures IsForbidden(word, lower)
  {
    assert word in FORBIDDEN;
    assert OccursAt(lower(word), lower(word), 0);
  }

  /** A text with a connection URL anywhere in it is recognised. */
  lemma UrlIsRecognised(before: JsString, after: JsString)
    ensures HasUrl(before + (Units("postgres://") + after))
    ensures HasUrl(before + (Units("postgresql://") + after))
    ensures HasUrl(before + (Units("redis://") + after))
  {
    PartIsIncluded(before, Units("postgres://"), after);
    PartIsIncluded(before, Units("postgresql://"), after);
    PartIsIncluded(before, Units("redis://"), after);
  }

  lemma PartIsIncluded(before: JsString, part: JsString, after: JsString)
    ensures Includes(before + (part + after), part)
  {
    var text := before + (part + after);
    assert text[|before|..|before| + |part|] == part;
    assert OccursAt(text, part, |before|);
  }

  // ----- Safe trees

  /** Keys are distinct and none is `__proto__`, at every depth. */
  ghost predicate Keyed(fields: seq<Field>) {
    && DistinctKeys(fields)
    && forall i | 0 <= i < |fields| :: fields[i].key != PROTO && KeyedValue(fields[i].value)
  }

  ghost predicate KeyedValue(value: Json)
    decreases value
  {
    value.Object? ==>
      && DistinctKeys(value.fields)
      && forall i | 0 <= i < |value.fields| :: value.fields[i].key != PROTO && KeyedValue(value.fields[i].value)
  }

  lemma {:induction false} SafeValueIsKept(field: Field, lower: Lower)
    requires SafeField(field, lower) && KeyedValue(field.value)
    ensures RedactValue(field.key, field.value, lower) == field.value
    decreases field
  {
    if !IsForbidden(field.key, lower) && field.value.Object? {
      var inner := field.value.fields;
      forall f | f in inner
        ensures f.key != PROTO && RedactValue(f.key, f.value, lower) == f.value
      {
        var i :| 0 <= i < |inner| && inner[i] == f;
        SafeValueIsKept(inner[i], lower);
      }
      FixedFields(inner, lower);
    }
  }

  /** Evidence that is already safe is stored as it is: redaction changes a tree only where it must. */
  lemma SafeEvidenceIsKept(fields: seq<Field>, lower: Lower)
    requires Safe(fields, lower) && Keyed(fields)
    ensures RedactFields(fields, lower) == fields
  {
    forall f | f in fields
      ensures f.key != PROTO && RedactValue(f.key, f.value, lower) == f.value
    {
      var i :| 0 <= i < |fields| && fields[i] == f;
      SafeValueIsKept(fields[i], lower);
    }
    FixedFields(fields, lower);
  }
}
