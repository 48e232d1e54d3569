/**
  Deriving the narrower tool-schema dialect from a JSON Schema, and the checker for that dialect.
 */
module StrictSchema {
  import opened Text
  import opened Wrappers

  datatype Json = Null | Bool(b: bool) | Num(n: real) | Str(s: string) | Arr(items: seq<Json>) | Obj(fields: seq<Field>)
  datatype Field = Field(key: string, value: Json)

  function Get(fields: seq<Field>, key: string): Option<Json> {
    if fields == [] then None
    else if fields[0].key == key then Some(fields[0].value)
    else Get(fields[1..], key)
  }

  predicate Unsupported(key: string) {
    key == "maxItems" || key == "maxLength" || key == "minLength" || key == "pattern"
  }

  predicate LargeMinItems(f: Field) {
    f.key == "minItems" && f.value.Num? && f.value.n > 1.0
  }

  /** Whether the translation keeps the entry. */
  predicate Kept(f: Field) {
    !Unsupported(f.key) && !LargeMinItems(f)
  }

  /** A type array made of strings among which is "null". */
  predicate Nullable(t: Option<Json>) {
    t.Some? && t.value.Arr? && (forall i | 0 <= i < |t.value.items| ::
        t.value.items[i].Str?) && Str("null") in t.value.items
  }

  function NonNull(types: seq<Json>): (r: seq<Json>)
    ensures forall i | 0 <= i < |r| :: r[i] in types && r[i] != Str("null")
  {
    if types == [] then []
    else if types[0] == Str("null") then NonNull(types[1..])
    else [types[0]] + NonNull(types[1..])
  }

  function Untyped(fields: seq<Field>): seq<Field> {
    if fields == [] then []
    else if fields[0].key == "type" then Untyped(fields[1..])
    else [fields[0]] + Untyped(fields[1..])
  }

  const NULL_SCHEMA := Obj([Field("type", Str("null"))])

  /** The schema with its type array replaced by one of its members. */
  function Branch(rest: seq<Field>, t: Json): Json {
    Obj(rest + [Field("type", t)])
  }

  // ----- the size that goes down -----

  function Size(v: Json): nat
    decreases v
  {
    match v
    case Arr(items) => 1 + SizeItems(items)
    case Obj(fields) => 1 + SizeFields(fields)
    case _ => 1
  }

  function SizeItems(items: seq<Json>): nat
    decreases items
  {
    if items == [] then 0 else Size(items[0]) + SizeItems(items[1..])
  }

  function SizeFields(fields: seq<Field>): nat
    decreases fields
  {
    if fields == [] then 0 else 1 + Size(fields[0].value) + SizeFields(fields[1..])
  }

  lemma {:induction false} SizeItem(items: seq<Json>, i: nat)
    requires i < |items|
    ensures Size(items[i]) <= SizeItems(items)
  {
    if i > 0 {
      SizeItem(items[1..], i - 1);
    }
  }

  lemma {:induction false} SizeField(fields: seq<Field>, i: nat)
    requires i < |fields|
    ensures Size(fields[i].value) < SizeFields(fields)
  {
    if i > 0 {
      SizeField(fields[1..], i - 1);
    }
  }

  lemma {:induction false} SizeAppend(rest: seq<Field>, f: Field)
    ensures SizeFields(rest + [f]) == SizeFields(rest) + 1 + Size(f.value)
  {
    if rest == [] {
      assert (rest + [f])[1..] == [];
    } else {
      assert (rest + [f])[1..] == rest[1..] + [f];
      SizeAppend(rest[1..], f);
    }
  }

  lemma {:induction false} SizeUntyped(fields: seq<Field>)
    ensures SizeFields(Untyped(fields)) <= SizeFields(fields)
    ensures Get(fields, "type").Some? ==>
        SizeFields(Untyped(fields)) + 1 + Size(Get(fields, "type").value) <= SizeFields(fields)
  {
    if fields != [] {
      SizeUntyped(fields[1..]);
      if fields[0].key != "type" {
        assert Untyped(fields)[1..] == Untyped(fields[1..]);
      }
    }
  }

  /** Every branch is smaller than the schema it comes from, though it is no part of it. */
  lemma BranchSmaller(fields: seq<Field>, t: Json)
    requires Nullable(Get(fields, "type")) && t.Str?
    ensures Size(Branch(Untyped(fields), t)) == 3 + SizeFields(Untyped(fields))
    ensures 4 + SizeFields(Untyped(fields)) <= Size(Obj(fields))
  {
    SizeUntyped(fields);
    SizeAppend(Untyped(fields), Field("type", t));
    var types := Get(fields, "type").value.items;
    var i :| 0 <= i < |types| && types[i] == Str("null");
    SizeItem(types, i);
  }

  // ----- the translation -----

  function ToStrict(v: Json): Json
    decreases Size(v), 1, 0
  {
    match v
    case Arr(items) => Arr(StrictItems(items))
    case Obj(fields) =>
      if Nullable(Get(fields, "type")) then
        BranchSmaller(fields, Str("null"));
        Obj([Field("anyOf", Arr(Branches(Untyped(fields), NonNull(Get(fields, "type").value.items)) + [NULL_SCHEMA]))])
      else Obj(StrictFields(fields))
    case _ => v
  }

  function StrictItems(items: seq<Json>): (r: seq<Json>)
    ensures |r| == |items|
    decreases SizeItems(items), 2, |items|
  {
    if items == [] then [] else [ToStrict(items[0])] + StrictItems(items[1..])
  }

  function StrictFields(fields: seq<Field>): seq<Field>
    decreases SizeFields(fields), 0, 0
  {
    if fields == [] then []
    else if Kept(fields[0]) then [Field(fields[0].key, ToStrict(fields[0].value))] + StrictFields(fields[1..])
    else StrictFields(fields[1..])
  }

  function Branches(rest: seq<Field>, names: seq<Json>): (r: seq<Json>)
    requires forall i | 0 <= i < |names| :: names[i].Str?
    ensures |r| == |names|
    decreases 4 + SizeFields(rest), 0, |names|
  {
    if names == [] then []
    else
      SizeAppend(rest, Field("type", names[0]));
      [ToStrict(Branch(rest, names[0]))] + Branches(rest, names[1..])
  }

  lemma {:induction false} StrictItemAt(items: seq<Json>, i: nat)
    requires i < |items|
    ensures StrictItems(items)[i] == ToStrict(items[i])
  {
    if i > 0 {
      StrictItemAt(items[1..], i - 1);
    }
  }

  lemma {:induction false} BranchAt(rest: seq<Field>, names: seq<Json>, i: nat)
    requires (forall j | 0 <= j < |names| :: names[j].Str?) && i < |names|
    ensures Branches(rest, names)[i] == ToStrict(Branch(rest, names[i]))
  {
    if i > 0 {
      BranchAt(rest, names[1..], i - 1);
    }
  }

  lemma {:induction false} NonNullMembers(types: seq<Json>)
    ensures forall t :: t in NonNull(types) <==> t in types && t != Str("null")
  {
    if types != [] {
      NonNullMembers(types[1..]);
      assert types == [types[0]] + types[1..];
    }
  }

  lemma {:induction false} StrictFieldsGet(fields: seq<Field>, key: string)
    requires !Unsupported(key) && key != "minItems"
    ensures Get(StrictFields(fields), key)
            == match Get(fields, key) case None => None case Some(v) => Some(ToStrict(v))
  {
    if fields != [] {
      StrictFieldsGet(fields[1..], key);
      if Kept(fields[0]) {
        assert StrictFields(fields)[0] == Field(fields[0].key, ToStrict(fields[0].value));
        assert StrictFields(fields)[1..] == StrictFields(fields[1..]);
      }
    }
  }

  /** Every entry of the result is a translated entry that was kept, and every one of those appears. */
  lemma {:induction false} StrictFieldsMembers(fields: seq<Field>)
    ensures forall g :: g in StrictFields(fields) <==>
                          exists i | 0 <= i < |fields| ::
                              Kept(fields[i]) && g == Field(fields[i].key, ToStrict(fields[i].value))
  {
    if fields != [] {
      StrictFieldsMembers(fields[1..]);
      var head := if Kept(fields[0]) then [Field(fields[0].key, ToStrict(fields[0].value))] else [];
      assert StrictFields(fields) == head + StrictFields(fields[1..]);
      forall g | g in StrictFields(fields)
        ensures exists i | 0 <= i < |fields| :: Kept(fields[i]) && g == Field(fields[i].key, ToStrict(fields[i].value))
      {
        if g !in head {
          var i :| 0 <= i < |fields[1..]| && Kept(fields[1..][i])
              && g == Field(fields[1..][i].key, ToStrict(fields[1..][i].value));
          assert fields[i + 1] == fields[1..][i];
        }
      }
      forall i | 0 <= i < |fields| && Kept(fields[i])
        ensures Field(fields[i].key, ToStrict(fields[i].value)) in StrictFields(fields)
      {
        if i > 0 {
          assert fields[1..][i - 1] == fields[i];
        }
      }
    }
  }

  // ----- idempotence -----

  /** Whether a value is a nullable type array is not changed by translating it. */
  lemma NullableStable(t: Json)
    ensures Nullable(Some(ToStrict(t))) <==> Nullable(Some(t))
  {
    if t.Arr? {
      forall i | 0 <= i < |t.items| ensures ToStrict(t).items[i] == ToStrict(t.items[i]) {
        StrictItemAt(t.items, i);
      }
      StrictStrings(t.items);
    }
  }

  lemma StrictStrings(items: seq<Json>)
    ensures forall i | 0 <= i < |items| :: StrictItems(items)[i].Str? <==> items[i].Str?
    ensures forall i | 0 <= i < |items| && items[i].Str? :: StrictItems(items)[i] == items[i]
    ensures Str("null") in StrictItems(items) <==> Str("null") in items
  {
    hide StrictItems;
    forall i | 0 <= i < |items|
      ensures StrictItems(items)[i].Str? <==> items[i].Str?
      ensures items[i].Str? ==> StrictItems(items)[i] == items[i]
    {
      StrictItemAt(items, i);
    }
    if Str("null") in items {
      var i :| 0 <= i < |items| && items[i] == Str("null");
      assert StrictItems(items)[i] == Str("null");
    }
    if Str("null") in StrictItems(items) {
      var i :| 0 <= i < |items| && StrictItems(items)[i] == Str("null");
      assert items[i].Str?;
    }
  }

  lemma NullSchemaFixed()
    ensures ToStrict(NULL_SCHEMA) == NULL_SCHEMA
  {
    var f := NULL_SCHEMA.fields;
    assert f[1..] == [];
    assert StrictFields(f) == [Field("type", ToStrict(Str("null")))] + StrictFields([]);
  }

  lemma {:induction false} StrictItemsAppend(items: seq<Json>, last: Json)
    ensures StrictItems(items + [last]) == StrictItems(items) + [ToStrict(last)]
  {
    if items == [] {
      assert (items + [last])[1..] == [];
    } else {
      assert (items + [last])[1..] == items[1..] + [last];
      StrictItemsAppend(items[1..], last);
    }
  }

  lemma WrapperStrict(choices: seq<Json>)
    ensures ToStrict(Obj([Field("anyOf", Arr(choices))])) == Obj([Field("anyOf", Arr(StrictItems(choices)))])
  {
    var f := [Field("anyOf", Arr(choices))];
    assert f[1..] == [];
    assert Kept(f[0]);
    assert StrictFields(f) == [Field("anyOf", ToStrict(Arr(choices)))] + StrictFields([]);
    assert Get(f, "type") == Get([], "type") == None;
  }

  /** Translating twice is translating once, on every JSON value. */
  lemma {:induction false} Idempotent(v: Json)
    ensures ToStrict(ToStrict(v)) == ToStrict(v)
    decreases Size(v), 1, 0
  {
    match v {
      case Arr(items) => ItemsIdempotent(items);
      case Obj(fields) =>
        if Nullable(Get(fields, "type")) {
          BranchSmaller(fields, Str("null"));
          var names := NonNull(Get(fields, "type").value.items);
          var choices := Branches(Untyped(fields), names);
          BranchesIdempotent(Untyped(fields), names);
          NullSchemaFixed();
          StrictItemsAppend(choices, NULL_SCHEMA);
          WrapperStrict(choices + [NULL_SCHEMA]);
        } else {
          FieldsIdempotent(fields);
          StrictFieldsGet(fields, "type");
          if Get(fields, "type").Some? {
            NullableStable(Get(fields, "type").value);
          }
        }
      case _ =>
    }
  }

  lemma {:induction false} ItemsIdempotent(items: seq<Json>)
    ensures StrictItems(StrictItems(items)) == StrictItems(items)
    decreases SizeItems(items), 2, |items|
  {
    if items != [] {
      Idempotent(items[0]);
      ItemsIdempotent(items[1..]);
    }
  }

  lemma {:induction false} FieldsIdempotent(fields: seq<Field>)
    ensures StrictFields(StrictFields(fields)) == StrictFields(fields)
    decreases SizeFields(fields), 0, 0
  {
    if fields != [] {
      Idempotent(fields[0].value);
      FieldsIdempotent(fields[1..]);
      if Kept(fields[0]) {
        var head := Field(fields[0].key, ToStrict(fields[0].value));
        assert StrictFields(fields) == [head] + StrictFields(fields[1..]);
        assert StrictFields(fields)[1..] == StrictFields(fields[1..]);
        assert Kept(head);
      } else {
        assert StrictFields(fields) == StrictFields(fields[1..]);
      }
    }
  }

  lemma {:induction false} BranchesIdempotent(rest: seq<Field>, names: seq<Json>)
    requires forall i | 0 <= i < |names| :: names[i].Str?
    ensures StrictItems(Branches(rest, names)) == Branches(rest, names)
    decreases 4 + SizeFields(rest), 0, |names|
  {
    if names != [] {
      SizeAppend(rest, Field("type", names[0]));
      Idempotent(Branch(rest, names[0]));
      BranchesIdempotent(rest, names[1..]);
      var b := Branches(rest, names);
      assert b == [ToStrict(Branch(rest, names[0]))] + Branches(rest, names[1..]);
      assert b[1..] == Branches(rest, names[1..]);
    }
  }

  // ----- the checker -----

  const UNSUPPORTED := ["maxItems", "maxLength", "minLength", "pattern"]

  predicate Has(fields: seq<Field>, key: string) {
    exists i | 0 <= i < |fields| :: fields[i].key == key
  }

  /** Which of the first `n` unsupported keywords the schema uses. */
  function KeywordViolations(fields: seq<Field>, path: string, n: nat): seq<string>
    requires n <= |UNSUPPORTED|
  {
    if n == 0 then []
    else
      KeywordViolations(fields, path, n - 1)
      + if Has(fields, UNSUPPORTED[n - 1]) then [path + "." + UNSUPPORTED[n - 1]] else []
  }

  predicate LargeMinimum(fields: seq<Field>) {
    var m := Get(fields, "minItems");
    m.Some? && m.value.Num? && m.value.n > 1.0
  }

  predicate TypeArray(fields: seq<Field>) {
    var t := Get(fields, "type");
    t.Some? && t.value.Arr?
  }

  predicate OpenObject(fields: seq<Field>) {
    Get(fields, "type") == Some(Str("object")) && Get(fields, "additionalProperties") != Some(Bool(false))
  }

  function OwnViolations(fields: seq<Field>, path: string): seq<string> {
    KeywordViolations(fields, path, |UNSUPPORTED|)
    + (if LargeMinimum(fields) then [path + ".minItems"] else [])
    + (if TypeArray(fields) then [path + ".type[]"] else [])
    + (if OpenObject(fields) then [path + ".additionalProperties"] else [])
  }

  /** Entries the checker does not look into. */
  predicate Skipped(key: string) {
    key == "type" || key == "required" || key == "enum"
  }

  function Violations(v: Json, path: string): seq<string>
    decreases v, 1, 0
  {
    match v
    case Arr(items) => ItemViolations(v, path, |items|)
    case Obj(fields) => OwnViolations(fields, path) + FieldViolations(v, path, |fields|)
    case _ => []
  }

  function ItemViolations(v: Json, path: string, n: nat): seq<string>
    requires v.Arr? && n <= |v.items|
    decreases v, 0, n
  {
    if n == 0 then []
    else ItemViolations(v, path, n - 1) + Violations(v.items[n - 1], path + "[" + Digits(n - 1) + "]")
  }

  function FieldViolations(v: Json, path: string, n: nat): seq<string>
    requires v.Obj? && n <= |v.fields|
    decreases v, 0, n
  {
    if n == 0 then []
    else
      var f := v.fields[n - 1];
      FieldViolations(v, path, n - 1) + if Skipped(f.key) then [] else Violations(f.value, path + "." + f.key)
  }

  method CollectOwn(fields: seq<Field>, path: string) returns (violations: seq<string>)
    ensures violations == OwnViolations(fields, path)
  {
    violations := [];
    for k := 0 to |UNSUPPORTED|
      invariant violations == KeywordViolations(fields, path, k)
    {
      if Has(fields, UNSUPPORTED[k]) {
        violations := violations + [path + "." + UNSUPPORTED[k]];
      }
    }
    if LargeMinimum(fields) {
      violations := violations + [path + ".minItems"];
    }
    if TypeArray(fields) {
      violations := violations + [path + ".type[]"];
    }
    if OpenObject(fields) {
      violations := violations + [path + ".additionalProperties"];
    }
  }

  /** The checker as it runs: it pushes what it finds as it goes. */
  method CollectViolations(v: Json, path: string) returns (violations: seq<string>)
    ensures violations == Violations(v, path)
    decreases v
  {
    hide OwnViolations, Digits;
    violations := [];
    if v.Arr? {
      for i := 0 to |v.items|
        invariant violations == ItemViolations(v, path, i)
      {
        var inner := CollectViolations(v.items[i], path + "[" + Digits(i) + "]");
        violations := violations + inner;
      }
    } else if v.Obj? {
      violations := CollectOwn(v.fields, path);
      ghost var own := violations;
      for i := 0 to |v.fields|
        invariant violations == own + FieldViolations(v, path, i)
      {
        if !Skipped(v.fields[i].key) {
          var inner := CollectViolations(v.fields[i].value, path + "." + v.fields[i].key);
          violations := violations + inner;
        }
      }
    }
  }

  // ----- what the checker accepts -----

  ghost predicate OwnClean(fields: seq<Field>) {
    && (forall f | f in fields :: !Unsupported(f.key))
    && !LargeMinimum(fields) && !TypeArray(fields) && !OpenObject(fields)
  }

  /** In the dialect: at every place the checker reaches, no unsupported keyword, no type array, no
      object schema left open. */
  ghost predicate Clean(v: Json)
    decreases v
  {
    match v
    case Arr(items) => forall i | 0 <= i < |items| :: Clean(items[i])
    case Obj(fields) =>
      && OwnClean(fields)
      && forall i | 0 <= i < |fields| && !Skipped(fields[i].key) :: Clean(fields[i].value)
    case _ => true
  }

  lemma OwnCleanMeaning(fields: seq<Field>, path: string)
    ensures OwnViolations(fields, path) == [] <==> OwnClean(fields)
  {
    assert KeywordViolations(fields, path, 4) == [] <==> forall k | 0 <= k < 4 :: !Has(fields, UNSUPPORTED[k]) by {
      assert KeywordViolations(fields, path, 1) == [] <==> !Has(fields, UNSUPPORTED[0]);
      assert KeywordViolations(fields, path, 2) == [] <==> !Has(fields, UNSUPPORTED[0]) && !Has(fields, UNSUPPORTED[1]);
    }
    if forall k | 0 <= k < 4 :: !Has(fields, UNSUPPORTED[k]) {
      forall f | f in fields ensures !Unsupported(f.key) {
        var i :| 0 <= i < |fields| && fields[i] == f;
        assert !Has(fields, UNSUPPORTED[0]) && !Has(fields, UNSUPPORTED[1]);
        assert !Has(fields, UNSUPPORTED[2]) && !Has(fields, UNSUPPORTED[3]);
      }
    } else {
      var k :| 0 <= k < 4 && Has(fields, UNSUPPORTED[k]);
      var i :| 0 <= i < |fields| && fields[i].key == UNSUPPORTED[k];
      assert fields[i] in fields && Unsupported(fields[i].key);
    }
  }

  /** The checker reports nothing exactly on schemas in the dialect, wherever it starts. */
  lemma {:induction false} ViolationsMeaning(v: Json, path: string)
    ensures Violations(v, path) == [] <==> Clean(v)
    decreases v, 1, 0
  {
    match v {
      case Arr(items) => ItemViolationsMeaning(v, path, |items|);
      case Obj(fields) =>
        OwnCleanMeaning(fields, path);
        FieldViolationsMeaning(v, path, |fields|);
      case _ =>
    }
  }

  lemma {:induction false} ItemViolationsMeaning(v: Json, path: string, n: nat)
    requires v.Arr? && n <= |v.items|
    ensures ItemViolations(v, path, n) == [] <==> forall i | 0 <= i < n :: Clean(v.items[i])
    decreases v, 0, n
  {
    hide Digits, OwnViolations, Clean;
    if n > 0 {
      ItemViolationsMeaning(v, path, n - 1);
      ViolationsMeaning(v.items[n - 1], path + "[" + Digits(n - 1) + "]");
    }
  }

  lemma {:induction false} FieldViolationsMeaning(v: Json, path: string, n: nat)
    requires v.Obj? && n <= |v.fields|
    ensures FieldViolations(v, path, n) == [] <==>
            forall i | 0 <= i < n && !Skipped(v.fields[i].key) :: Clean(v.fields[i].value)
    decreases v, 0, n
  {
    hide Digits, OwnViolations, Clean;
    if n > 0 {
      FieldViolationsMeaning(v, path, n - 1);
      ViolationsMeaning(v.fields[n - 1].value, path + "." + v.fields[n - 1].key);
    }
  }

  // ----- which schemas translate into the dialect -----

  ghost predicate Closed(fields: seq<Field>) {
    Get(fields, "additionalProperties") == Some(Bool(false))
  }

  ghost predicate EntriesConform(v: Json)
    requires v.Obj?
    decreases v, 0
  {
    forall i | 0 <= i < |v.fields| && Kept(v.fields[i]) && !Skipped(v.fields[i].key) :: Conforms(v.fields[i].value)
  }

  /** Every type array is made of strings and includes "null", and every schema that allows objects
      closes them, wherever the checker will look. */
  ghost predicate Conforms(v: Json)
    decreases v, 1
  {
    match v
    case Arr(items) => forall i | 0 <= i < |items| :: Conforms(items[i])
    case Obj(fields) =>
      var t := Get(fields, "type");
      if Nullable(t) then
        && (NonNull(t.value.items) != [] ==> EntriesConform(v))
        && (Str("object") in t.value.items ==> Closed(fields))
      else
        && !TypeArray(fields)
        && (t == Some(Str("object")) ==> Closed(fields))
        && EntriesConform(v)
    case _ => true
  }

  lemma {:induction false} GetUntyped(fields: seq<Field>, key: string)
    ensures Get(Untyped(fields), key) == if key == "type" then None else Get(fields, key)
  {
    if fields != [] {
      GetUntyped(fields[1..], key);
      if fields[0].key != "type" {
        assert Untyped(fields)[1..] == Untyped(fields[1..]);
      }
    }
  }

  lemma {:induction false} GetAppend(fields: seq<Field>, f: Field, key: string)
    ensures Get(fields + [f], key)
            == if Get(fields, key).Some? then Get(fields, key) else if f.key == key then Some(f.value) else None
  {
    if fields == [] {
      assert (fields + [f])[1..] == [];
    } else {
      assert (fields + [f])[1..] == fields[1..] + [f];
      GetAppend(fields[1..], f, key);
    }
  }

  lemma GetBranch(fields: seq<Field>, t: Json, key: string)
    ensures Get(Branch(Untyped(fields), t).fields, key) == if key == "type" then Some(t) else Get(fields, key)
  {
    GetUntyped(fields, key);
    GetAppend(Untyped(fields), Field("type", t), key);
  }

  lemma {:induction false} UntypedMembers(fields: seq<Field>)
    ensures forall f :: f in Untyped(fields) <==> f in fields && f.key != "type"
  {
    if fields != [] {
      UntypedMembers(fields[1..]);
      assert fields == [fields[0]] + fields[1..];
    }
  }

  lemma EntriesConformMembers(v: Json)
    requires v.Obj?
    ensures EntriesConform(v) <==> forall f | f in v.fields && Kept(f) && !Skipped(f.key) :: Conforms(f.value)
  {
    if EntriesConform(v) {
      forall f | f in v.fields && Kept(f) && !Skipped(f.key) ensures Conforms(f.value) {
        var i :| 0 <= i < |v.fields| && v.fields[i] == f;
      }
    } else {
      var i :| 0 <= i < |v.fields| && Kept(v.fields[i]) && !Skipped(v.fields[i].key) && !Conforms(v.fields[i].value);
      assert v.fields[i] in v.fields;
    }
  }

  lemma PlainConforms(fields: seq<Field>)
    requires Get(fields, "type").Some? && Get(fields, "type").value.Str?
    ensures Conforms(Obj(fields)) <==>
        EntriesConform(Obj(fields)) && (Get(fields, "type") == Some(Str("object")) ==> Closed(fields))
  {
    hide EntriesConform, Get;
  }

  lemma BranchConforms(fields: seq<Field>, t: Json)
    requires t.Str?
    ensures Conforms(Branch(Untyped(fields), t)) <==>
        EntriesConform(Obj(fields)) && (t == Str("object") ==> Closed(fields))
  {
    hide Conforms, EntriesConform, Get, Untyped;
    var b := Branch(Untyped(fields), t);
    GetBranch(fields, t, "type");
    GetBranch(fields, t, "additionalProperties");
    PlainConforms(b.fields);
    EntriesConformMembers(b);
    EntriesConformMembers(Obj(fields));
    UntypedMembers(fields);
    assert forall f :: f in b.fields <==> f in Untyped(fields) || f == Field("type", t);
  }

  lemma NullSchemaClean()
    ensures Clean(NULL_SCHEMA)
  {
    assert Get(NULL_SCHEMA.fields, "minItems") == Get(NULL_SCHEMA.fields[1..], "minItems") == None;
    assert forall f | f in NULL_SCHEMA.fields :: f.key == "type";
  }

  lemma WrapperClean(choices: seq<Json>)
    ensures Clean(Obj([Field("anyOf", Arr(choices))])) <==> forall i | 0 <= i < |choices| :: Clean(choices[i])
  {
    var f := [Field("anyOf", Arr(choices))];
    assert f[1..] == [];
    assert Get(f, "type") == Get(f[1..], "type") == None;
    assert Get(f, "minItems") == Get(f[1..], "minItems") == None;
    assert OwnClean(f);
    assert Clean(f[0].value) <==> forall i | 0 <= i < |choices| :: Clean(choices[i]);
  }

  lemma {:induction false} NoLargeMinimum(fields: seq<Field>)
    ensures !LargeMinimum(StrictFields(fields))
  {
    if fields != [] {
      NoLargeMinimum(fields[1..]);
      if Kept(fields[0]) {
        assert StrictFields(fields)[1..] == StrictFields(fields[1..]);
      }
    }
  }

  lemma StrictOwnClean(fields: seq<Field>)
    requires !Nullable(Get(fields, "type"))
    ensures OwnClean(StrictFields(fields)) <==>
            !TypeArray(fields) && (Get(fields, "type") == Some(Str("object")) ==> Closed(fields))
  {
    StrictFieldsGet(fields, "type");
    StrictFieldsGet(fields, "additionalProperties");
    StrictFieldsMembers(fields);
    NoLargeMinimum(fields);
  }

  /** The derived schema is in the dialect exactly when the source conforms. */
  lemma {:induction false} TranslationClean(v: Json)
    ensures Clean(ToStrict(v)) <==> Conforms(v)
    decreases Size(v), 1
  {
    match v {
      case Arr(items) =>
        forall i | 0 <= i < |items| ensures Clean(ToStrict(v).items[i]) <==> Conforms(items[i]) {
          SizeItem(items, i);
          StrictItemAt(items, i);
          TranslationClean(items[i]);
        }
      case Obj(fields) =>
        if Nullable(Get(fields, "type")) {
          NullableClean(fields);
        } else {
          FieldsClean(fields);
        }
      case _ =>
    }
  }

  lemma {:induction false} NullableClean(fields: seq<Field>)
    requires Nullable(Get(fields, "type"))
    ensures Clean(ToStrict(Obj(fields))) <==> Conforms(Obj(fields))
    decreases Size(Obj(fields)), 0
  {
    var types := Get(fields, "type").value.items;
    var names, rest := NonNull(types), Untyped(fields);
    var choices := Branches(rest, names) + [NULL_SCHEMA];
    forall i | 0 <= i < |names|
      ensures Clean(choices[i]) <==> EntriesConform(Obj(fields)) && (names[i] == Str("object") ==> Closed(fields))
    {
      BranchAt(rest, names, i);
      BranchSmaller(fields, names[i]);
      TranslationClean(Branch(rest, names[i]));
      BranchConforms(fields, names[i]);
    }
    NullSchemaClean();
    WrapperClean(choices);
    NonNullMembers(types);
    assert Str("object") in types <==> Str("object") in names;
    assert choices[|names|] == NULL_SCHEMA;
  }

  lemma {:induction false} FieldsClean(fields: seq<Field>)
    requires !Nullable(Get(fields, "type"))
    ensures Clean(ToStrict(Obj(fields))) <==> Conforms(Obj(fields))
    decreases Size(Obj(fields)), 0
  {
    StrictOwnClean(fields);
    StrictFieldsMembers(fields);
    var out := StrictFields(fields);
    forall i | 0 <= i < |fields| ensures Clean(ToStrict(fields[i].value)) <==> Conforms(fields[i].value) {
      SizeField(fields, i);
      TranslationClean(fields[i].value);
    }
    if EntriesConform(Obj(fields)) {
      forall k | 0 <= k < |out| && !Skipped(out[k].key) ensures Clean(out[k].value) {
        assert out[k] in out;
      }
    } else {
      var i :| 0 <= i < |fields| && Kept(fields[i]) && !Skipped(fields[i].key) && !Conforms(fields[i].value);
      var g := Field(fields[i].key, ToStrict(fields[i].value));
      assert g in out;
      var k :| 0 <= k < |out| && out[k] == g;
      assert !Clean(out[k].value);
    }
  }

  /** The checker passes the derived schema exactly when the source conforms. */
  lemma TranslationPassesChecker(v: Json, path: string)
    ensures Violations(ToStrict(v), path) == [] <==> Conforms(v)
  {
    ViolationsMeaning(ToStrict(v), path);
    TranslationClean(v);
  }
}
