/** The one schema the program translates: an organization plan as the model returns it. */
module OrganizationSchema {
  import opened Wrappers
  import opened StrictSchema
  import opened SchemaMeaning
  import opened SchemaPlaces

  // ----- the schema -----

  function Strings(names: seq<string>): seq<Json> {
    seq(|names|, i requires 0 <= i < |names| => Str(names[i]))
  }

  function Keys(properties: seq<Field>): seq<string> {
    seq(|properties|, i requires 0 <= i < |properties| => properties[i].key)
  }

  function ObjectSchema(properties: seq<Field>): Json {
    Obj([
      Field("additionalProperties", Bool(false)),
      Field("properties", Obj(properties)),
      Field("required", Arr(Strings(Keys(properties)))),
      Field("type", Str("object"))
    ])
  }

  function Typed(t: string): Json {
    Obj([Field("type", Str(t))])
  }

  function Constant(v: Json, t: string): Json {
    Obj([Field("const", v), Field("type", Str(t))])
  }

  function Enumeration(names: seq<string>): Json {
    Obj([Field("enum", Arr(Strings(names))), Field("type", Str("string"))])
  }

  function Patterned(pattern: string): Json {
    Obj([Field("pattern", Str(pattern)), Field("type", Str("string"))])
  }

  function AnyOf(choices: seq<Json>): Json {
    Obj([Field("anyOf", Arr(choices))])
  }

  function AtMost(items: Json, most: real): Json {
    Obj([Field("items", items), Field("maxItems", Num(most)), Field("type", Str("array"))])
  }

  function OneTo(items: Json, most: real): Json {
    Obj([Field("items", items), Field("maxItems", Num(most)), Field("minItems", Num(1.0)), Field("type", Str("array"))])
  }

  const STRING_OR_NULL := Arr([Str("string"), Str("null")])
  const CANDIDATE := "^candidate_[0-9a-f]{32}$"
  const ONE_LINE := "^[^\\r\\n]+$"

  const NULLABLE_STRING := Obj([Field("type", STRING_OR_NULL)])
  const NULLABLE_CANDIDATE := Obj([Field("pattern", Str(CANDIDATE)), Field("type", STRING_OR_NULL)])

  const APPEND_RAW := [
    Field("content", Typed("string")),
    Field("type", Constant(Str("append_raw"), "string"))
  ]

  const APPEND_PARAGRAPHS := [
    Field("paragraphs", OneTo(Patterned(ONE_LINE), 20.0)),
    Field("type", Constant(Str("append_paragraphs"), "string"))
  ]

  const APPEND_LIST_ITEMS := [
    Field("items", OneTo(Patterned(ONE_LINE), 50.0)),
    Field("section", NULLABLE_STRING),
    Field("type", Constant(Str("append_list_items"), "string"))
  ]

  const ADD_RELATION := [
    Field("linkType", Enumeration(["reference", "related"])),
    Field("toCandidateId", Patterned(CANDIDATE)),
    Field("type", Constant(Str("add_relation"), "string"))
  ]

  const OPERATIONS := [
    ObjectSchema(APPEND_RAW),
    ObjectSchema(APPEND_PARAGRAPHS),
    ObjectSchema(APPEND_LIST_ITEMS),
    ObjectSchema(ADD_RELATION)
  ]

  const DEFINITIONS := [Field("operation", AnyOf(OPERATIONS))]

  const NEW_NOTE := [
    Field("noteType", Enumeration(["generic", "list", "log", "principle", "project"])),
    Field("spaceCandidateId", Typed("null")),
    Field("title", Typed("string"))
  ]

  const DESTINATION := [
    Field("candidateId", NULLABLE_CANDIDATE),
    Field("newNote", AnyOf([ObjectSchema(NEW_NOTE), Typed("null")]))
  ]

  const EXPANSION := [
    Field("kind", Enumeration(["summary", "interpretation", "suggestion", "label"])),
    Field("text", Typed("string"))
  ]

  /** The names of the enumerations are parameters: capture kinds, decisions and reason codes. */
  function Properties(kinds: seq<string>, decisions: seq<string>, reasons: seq<string>): seq<Field> {
    [
      Field("alternatives", AtMost(Patterned(CANDIDATE), 2.0)),
      Field("captureKind", Enumeration(kinds)),
      Field("decision", Enumeration(decisions)),
      Field("destination", ObjectSchema(DESTINATION)),
      Field("generatedExpansion", AnyOf([ObjectSchema(EXPANSION), Typed("null")])),
      Field("operations", AtMost(Obj([Field("$ref", Str(REF_PREFIX + "operation"))]), 5.0)),
      Field("reasonCodes", AtMost(Enumeration(reasons), 5.0)),
      Field("schemaVersion", Constant(Num(1.0), "integer"))
    ]
  }

  function Plan(kinds: seq<string>, decisions: seq<string>, reasons: seq<string>): Json {
    Obj([Field("$defs", Obj(DEFINITIONS))] + ObjectSchema(Properties(kinds, decisions, reasons)).fields)
  }

  // ----- its parts are in order -----

  /** In the fragment, with null admitted beside nullable types, and derivable into the dialect. */
  ghost predicate InOrder(rules: Rules, defs: seq<Field>, s: Json) {
    WellFormed(s) && Untouched(s) && AdmitsNull(rules, defs, s) && Conforms(s)
  }

  ghost predicate EntryInOrder(rules: Rules, defs: seq<Field>, f: Field) {
    && EntryWellFormed(f) && EntryUntouched(f) && EntryAdmitsNull(rules, defs, f)
    && (Skipped(f.key) || Conforms(f.value))
  }

  ghost predicate MapInOrder(rules: Rules, defs: seq<Field>, properties: seq<Field>) {
    forall i | 0 <= i < |properties| :: !Unsupported(properties[i].key) && InOrder(rules, defs, properties[i].value)
  }

  /** Entries whose values are no schemas and hold nothing to translate. */
  predicate PlainEntry(f: Field) {
    || (f.key == "type" && f.value.Str?)
    || (f.key == "const" && !f.value.Arr? && !f.value.Obj?)
    || ((f.key == "enum" || f.key == "required") && f.value.Arr? && forall i | 0 <= i < |f.value.items| ::
        f.value.items[i].Str?)
    || (f.key == "pattern" && f.value.Str?)
    || ((f.key == "minItems" || f.key == "maxItems") && f.value.Num?)
    || (f.key == "$ref" && f.value.Str?)
  }

  lemma PlainEntryInOrder(rules: Rules, defs: seq<Field>, f: Field)
    requires PlainEntry(f)
    ensures EntryInOrder(rules, defs, f)
  {
  }

  /** A schema without a type array is in order when its entries are and an object type is closed. */
  lemma EntriesInOrder(rules: Rules, defs: seq<Field>, fields: seq<Field>)
    requires OneType(fields) && forall i | 0 <= i < |fields| :: EntryInOrder(rules, defs, fields[i])
    requires Get(fields, "type").Some? ==> Get(fields, "type").value.Str?
    requires Get(fields, "type") == Some(Str("object")) ==> Closed(fields)
    ensures InOrder(rules, defs, Obj(fields))
  {
    hide EntryInOrder, OneType, Closed, WellFormed, Untouched, AdmitsNull, Conforms;
    FragmentOf(rules, defs, fields);
    NullAdmittedBy(rules, defs, fields);
    ConformsBy(rules, defs, fields);
  }

  lemma FragmentOf(rules: Rules, defs: seq<Field>, fields: seq<Field>)
    requires OneType(fields) && forall i | 0 <= i < |fields| :: EntryInOrder(rules, defs, fields[i])
    ensures WellFormed(Obj(fields)) && Untouched(Obj(fields))
  {
    hide EntryWellFormed, EntryUntouched, EntryAdmitsNull, Conforms, Skipped;
  }

  lemma NullAdmittedBy(rules: Rules, defs: seq<Field>, fields: seq<Field>)
    requires forall i | 0 <= i < |fields| :: EntryInOrder(rules, defs, fields[i])
    requires Nullable(Get(fields, "type")) ==> Means(rules, Lax, defs, Obj(Untyped(fields)), Null)
    ensures AdmitsNull(rules, defs, Obj(fields))
  {
    hide EntryWellFormed, EntryUntouched, EntryAdmitsNull, Conforms, Skipped, Means;
  }

  lemma ConformsBy(rules: Rules, defs: seq<Field>, fields: seq<Field>)
    requires forall i | 0 <= i < |fields| :: EntryInOrder(rules, defs, fields[i])
    requires var t := Get(fields, "type");
             || t.None? || (t.value.Str? && (t == Some(Str("object")) ==> Closed(fields)))
             || (Nullable(t) && Str("object") !in t.value.items)
    ensures Conforms(Obj(fields))
  {
    hide EntryWellFormed, EntryUntouched, EntryAdmitsNull, Skipped, Closed, Get;
    assert EntriesConform(Obj(fields));
  }

  lemma PlainInOrder(rules: Rules, defs: seq<Field>, fields: seq<Field>)
    requires OneType(fields) && forall i | 0 <= i < |fields| :: PlainEntry(fields[i])
    requires Get(fields, "type") != Some(Str("object"))
    ensures InOrder(rules, defs, Obj(fields))
  {
    hide PlainEntry, EntryInOrder, OneType, InOrder;
    forall i | 0 <= i < |fields| ensures EntryInOrder(rules, defs, fields[i]) {
      PlainEntryInOrder(rules, defs, fields[i]);
    }
    PlainTypes(fields);
    EntriesInOrder(rules, defs, fields);
  }

  lemma PlainTypes(fields: seq<Field>)
    requires forall i | 0 <= i < |fields| :: PlainEntry(fields[i])
    ensures Get(fields, "type").Some? ==> Get(fields, "type").value.Str?
  {
    GetMember(fields, "type");
  }

  lemma GetFirst(f: Field, rest: seq<Field>, key: string)
    ensures Get([f] + rest, key) == if f.key == key then Some(f.value) else Get(rest, key)
  {
    assert ([f] + rest)[1..] == rest;
  }

  lemma GetTwo(a: Field, b: Field, key: string)
    ensures Get([a, b], key) == if a.key == key then Some(a.value) else if b.key == key then Some(b.value) else None
  {
    assert [a, b] == [a] + [b] && [b] == [b] + [];
    GetFirst(a, [b], key);
    GetFirst(b, [], key);
  }

  lemma GetThree(a: Field, b: Field, c: Field, key: string)
    ensures Get([a, b, c], key) == if a.key == key then Some(a.value) else Get([b, c], key)
    ensures Get([b, c], key) == if b.key == key then Some(b.value) else if c.key == key then Some(c.value) else None
  {
    assert [a, b, c] == [a] + [b, c];
    GetFirst(a, [b, c], key);
    GetTwo(b, c, key);
  }

  lemma GetFour(a: Field, b: Field, c: Field, d: Field, key: string)
    ensures Get([a, b, c, d], key) == if a.key == key then Some(a.value) else Get([b, c, d], key)
    ensures Get([b, c, d], key) == if b.key == key then Some(b.value) else Get([c, d], key)
    ensures Get([c, d], key) == if c.key == key then Some(c.value) else if d.key == key then Some(d.value) else None
  {
    assert [a, b, c, d] == [a] + [b, c, d];
    GetFirst(a, [b, c, d], key);
    GetThree(b, c, d, key);
  }

  /** A property map in order is an entry in order. */
  lemma MapEntryInOrder(rules: Rules, defs: seq<Field>, key: string, properties: seq<Field>)
    requires MapInOrder(rules, defs, properties) && (key == "properties" || key == "$defs")
    ensures EntryInOrder(rules, defs, Field(key, Obj(properties)))
  {
    hide WellFormed, Untouched, AdmitsNull, Skipped;
    GetMember(properties, "type");
    forall i | 0 <= i < |properties| ensures !properties[i].value.Arr? && properties[i].value != Str("object") {
      SchemaIsNoArray(rules, defs, properties[i].value);
    }
    assert EntriesConform(Obj(properties));
    assert Conforms(Obj(properties));
    MapUntouched(rules, defs, properties);
    assert EntryWellFormed(Field(key, Obj(properties)));
  }

  lemma MapUntouched(rules: Rules, defs: seq<Field>, properties: seq<Field>)
    requires MapInOrder(rules, defs, properties)
    ensures SchemaMap(properties) && UntouchedMap(properties)
  {
    hide Untouched, AdmitsNull, Conforms;
    forall i | 0 <= i < |properties| ensures Kept(properties[i]) && Untouched(properties[i].value) {
      SchemaIsNoArray(rules, defs, properties[i].value);
    }
  }

  lemma SchemaIsNoArray(rules: Rules, defs: seq<Field>, s: Json)
    requires InOrder(rules, defs, s)
    ensures s.Bool? || s.Obj?
  {
  }

  lemma ObjectInOrder(rules: Rules, defs: seq<Field>, properties: seq<Field>)
    requires MapInOrder(rules, defs, properties)
    ensures InOrder(rules, defs, ObjectSchema(properties))
  {
    hide MapInOrder, EntryInOrder, InOrder, Keys, Get;
    var fields := ObjectSchema(properties).fields;
    ClosedInOrder(rules, defs);
    MapEntryInOrder(rules, defs, "properties", properties);
    PlainEntryInOrder(rules, defs, fields[2]);
    PlainEntryInOrder(rules, defs, fields[3]);
    GetFour(fields[0], fields[1], fields[2], fields[3], "type");
    GetFour(fields[0], fields[1], fields[2], fields[3], "additionalProperties");
    EntriesInOrder(rules, defs, fields);
  }

  lemma ClosedInOrder(rules: Rules, defs: seq<Field>)
    ensures EntryInOrder(rules, defs, Field("additionalProperties", Bool(false)))
  {
  }

  lemma ChoicesInOrder(rules: Rules, defs: seq<Field>, choices: seq<Json>)
    requires forall i | 0 <= i < |choices| :: InOrder(rules, defs, choices[i])
    ensures InOrder(rules, defs, AnyOf(choices))
  {
    hide WellFormed, Untouched, AdmitsNull;
    var f := Field("anyOf", Arr(choices));
    assert [f][1..] == [];
    assert Get([f], "type") == Get([f][1..], "type") == None;
    assert EntryInOrder(rules, defs, f);
    EntriesInOrder(rules, defs, [f]);
  }

  lemma ItemsInOrder(rules: Rules, defs: seq<Field>, items: Json)
    requires InOrder(rules, defs, items)
    ensures EntryInOrder(rules, defs, Field("items", items))
  {
    hide WellFormed, Untouched, AdmitsNull, Conforms;
  }

  lemma ListsInOrder(rules: Rules, defs: seq<Field>, items: Json, most: real)
    requires InOrder(rules, defs, items)
    ensures InOrder(rules, defs, AtMost(items, most)) && InOrder(rules, defs, OneTo(items, most))
  {
    hide InOrder, EntryInOrder, Get;
    var a, b := AtMost(items, most).fields, OneTo(items, most).fields;
    ItemsInOrder(rules, defs, items);
    PlainEntryInOrder(rules, defs, a[1]);
    PlainEntryInOrder(rules, defs, a[2]);
    PlainEntryInOrder(rules, defs, b[2]);
    GetThree(a[0], a[1], a[2], "type");
    GetFour(b[0], b[1], b[2], b[3], "type");
    EntriesInOrder(rules, defs, a);
    EntriesInOrder(rules, defs, b);
  }

  lemma SimpleInOrder(rules: Rules, defs: seq<Field>, t: string)
    requires t != "object"
    ensures InOrder(rules, defs, Typed(t))
  {
    hide InOrder;
    var f := Field("type", Str(t));
    assert [f][1..] == [] && Get([f], "type") == Some(Str(t));
    PlainInOrder(rules, defs, [f]);
  }

  lemma PairInOrder(rules: Rules, defs: seq<Field>, f: Field, t: string)
    requires PlainEntry(f) && f.key != "type" && t != "object"
    ensures InOrder(rules, defs, Obj([f, Field("type", Str(t))]))
  {
    hide InOrder, Get;
    GetTwo(f, Field("type", Str(t)), "type");
    PlainInOrder(rules, defs, [f, Field("type", Str(t))]);
  }

  lemma ReferenceInOrder(rules: Rules, defs: seq<Field>, ref: string)
    ensures InOrder(rules, defs, Obj([Field("$ref", Str(ref))]))
  {
    hide InOrder;
    var f := Field("$ref", Str(ref));
    assert [f][1..] == [] && Get([f], "type") == None;
    PlainInOrder(rules, defs, [f]);
  }

  lemma NullableTypes()
    ensures Nullable(Some(STRING_OR_NULL)) && Str("object") !in STRING_OR_NULL.items
    ensures ToStrict(STRING_OR_NULL) == STRING_OR_NULL
  {
    assert STRING_OR_NULL.items[1] == Str("null");
    assert ToStrict(STRING_OR_NULL).items == StrictItems(STRING_OR_NULL.items);
    StrictItemAt(STRING_OR_NULL.items, 0);
    StrictItemAt(STRING_OR_NULL.items, 1);
  }

  /** Beside a nullable type only a dropped keyword stands, so null is admitted. */
  lemma NullableInOrder(rules: Rules, defs: seq<Field>)
    ensures InOrder(rules, defs, NULLABLE_STRING) && InOrder(rules, defs, NULLABLE_CANDIDATE)
  {
    hide InOrder, EntryInOrder, Get, Untyped, STRING_OR_NULL;
    NullableTypes();
    var t, p := Field("type", STRING_OR_NULL), Field("pattern", Str(CANDIDATE));
    TypeArrayInOrder(rules, defs);
    PlainEntryInOrder(rules, defs, p);
    RestOfNullable(p, t);
    assert Valid(rules, Lax, defs, 0, Obj([]), Null) && Valid(rules, Lax, defs, 0, Obj([p]), Null);
    GetFirst(t, [], "type");
    assert [t] + [] == [t];
    GetTwo(p, t, "type");
    NullableBy(rules, defs, [t]);
    NullableBy(rules, defs, [p, t]);
  }

  lemma NullableBy(rules: Rules, defs: seq<Field>, fields: seq<Field>)
    requires OneType(fields) && forall i | 0 <= i < |fields| :: EntryInOrder(rules, defs, fields[i])
    requires Get(fields, "type") == Some(STRING_OR_NULL)
    requires Means(rules, Lax, defs, Obj(Untyped(fields)), Null)
    ensures InOrder(rules, defs, Obj(fields))
  {
    hide EntryInOrder, Means, WellFormed, Untouched, AdmitsNull, Conforms;
    NullableTypes();
    FragmentOf(rules, defs, fields);
    NullAdmittedBy(rules, defs, fields);
    ConformsBy(rules, defs, fields);
  }

  lemma TypeArrayInOrder(rules: Rules, defs: seq<Field>)
    ensures EntryInOrder(rules, defs, Field("type", STRING_OR_NULL))
  {
  }

  lemma RestOfNullable(p: Field, t: Field)
    requires p.key != "type" && t.key == "type"
    ensures Untyped([t]) == [] && Untyped([p, t]) == [p]
  {
    assert [t][1..] == [] && [p, t][1..] == [t];
    assert Untyped([t]) == Untyped([t][1..]);
    assert Untyped([p, t]) == [p] + Untyped([p, t][1..]);
  }

  // ----- the schema is in order -----

  lemma OperationsInOrder(rules: Rules, defs: seq<Field>)
    ensures forall i | 0 <= i < |OPERATIONS| :: InOrder(rules, defs, OPERATIONS[i])
  {
    hide InOrder, CANDIDATE, ONE_LINE;
    SimpleInOrder(rules, defs, "string");
    PairInOrder(rules, defs, Field("pattern", Str(ONE_LINE)), "string");
    PairInOrder(rules, defs, Field("pattern", Str(CANDIDATE)), "string");
    ListsInOrder(rules, defs, Patterned(ONE_LINE), 20.0);
    ListsInOrder(rules, defs, Patterned(ONE_LINE), 50.0);
    NullableInOrder(rules, defs);
    PairInOrder(rules, defs, Field("enum", Arr(Strings(["reference", "related"]))), "string");
    PairInOrder(rules, defs, Field("const", Str("append_raw")), "string");
    PairInOrder(rules, defs, Field("const", Str("append_paragraphs")), "string");
    PairInOrder(rules, defs, Field("const", Str("append_list_items")), "string");
    PairInOrder(rules, defs, Field("const", Str("add_relation")), "string");
    ObjectInOrder(rules, defs, APPEND_RAW);
    ObjectInOrder(rules, defs, APPEND_PARAGRAPHS);
    ObjectInOrder(rules, defs, APPEND_LIST_ITEMS);
    ObjectInOrder(rules, defs, ADD_RELATION);
  }

  lemma DestinationInOrder(rules: Rules, defs: seq<Field>)
    ensures InOrder(rules, defs, ObjectSchema(DESTINATION))
  {
    hide InOrder, CANDIDATE;
    SimpleInOrder(rules, defs, "string");
    SimpleInOrder(rules, defs, "null");
    NullableInOrder(rules, defs);
    PairInOrder(rules, defs, Field("enum", Arr(Strings(["generic", "list", "log", "principle", "project"]))), "string");
    ObjectInOrder(rules, defs, NEW_NOTE);
    ChoicesInOrder(rules, defs, [ObjectSchema(NEW_NOTE), Typed("null")]);
    ObjectInOrder(rules, defs, DESTINATION);
  }

  lemma ExpansionInOrder(rules: Rules, defs: seq<Field>)
    ensures InOrder(rules, defs, AnyOf([ObjectSchema(EXPANSION), Typed("null")]))
  {
    hide InOrder;
    SimpleInOrder(rules, defs, "string");
    SimpleInOrder(rules, defs, "null");
    PairInOrder(rules, defs, Field("enum", Arr(Strings(["summary", "interpretation", "suggestion", "label"]))),
        "string");
    ObjectInOrder(rules, defs, EXPANSION);
    ChoicesInOrder(rules, defs, [ObjectSchema(EXPANSION), Typed("null")]);
  }

  lemma PropertiesInOrder(rules: Rules, defs: seq<Field>, kinds: seq<string>, decisions: seq<string>,
                          reasons: seq<string>)
    ensures MapInOrder(rules, defs, Properties(kinds, decisions, reasons))
  {
    hide InOrder, CANDIDATE, DESTINATION, EXPANSION;
    PairInOrder(rules, defs, Field("pattern", Str(CANDIDATE)), "string");
    ListsInOrder(rules, defs, Patterned(CANDIDATE), 2.0);
    PairInOrder(rules, defs, Field("enum", Arr(Strings(kinds))), "string");
    PairInOrder(rules, defs, Field("enum", Arr(Strings(decisions))), "string");
    PairInOrder(rules, defs, Field("enum", Arr(Strings(reasons))), "string");
    ListsInOrder(rules, defs, Enumeration(reasons), 5.0);
    DestinationInOrder(rules, defs);
    ExpansionInOrder(rules, defs);
    ReferenceInOrder(rules, defs, REF_PREFIX + "operation");
    ListsInOrder(rules, defs, Obj([Field("$ref", Str(REF_PREFIX + "operation"))]), 5.0);
    PairInOrder(rules, defs, Field("const", Num(1.0)), "integer");
  }

  lemma DefinitionsInOrder(rules: Rules, defs: seq<Field>)
    ensures MapInOrder(rules, defs, DEFINITIONS)
  {
    hide InOrder, OPERATIONS;
    OperationsInOrder(rules, defs);
    ChoicesInOrder(rules, defs, OPERATIONS);
  }

  lemma PlanInOrder(rules: Rules, defs: seq<Field>, kinds: seq<string>, decisions: seq<string>, reasons: seq<string>)
    ensures InOrder(rules, defs, Plan(kinds, decisions, reasons))
    ensures var plan := Plan(kinds, decisions, reasons);
            plan.Obj? && Get(plan.fields, "$defs") == Some(Obj(DEFINITIONS)) && !NullableRoot(plan)
  {
    hide MapInOrder, EntryInOrder, InOrder, Keys, Get, Properties, DEFINITIONS;
    var object_ := ObjectSchema(Properties(kinds, decisions, reasons)).fields;
    var f := Field("$defs", Obj(DEFINITIONS));
    var fields := [f] + object_;
    DefinitionsInOrder(rules, defs);
    MapEntryInOrder(rules, defs, "$defs", DEFINITIONS);
    PropertiesInOrder(rules, defs, kinds, decisions, reasons);
    MapEntryInOrder(rules, defs, "properties", Properties(kinds, decisions, reasons));
    ClosedInOrder(rules, defs);
    PlainEntryInOrder(rules, defs, object_[2]);
    PlainEntryInOrder(rules, defs, object_[3]);
    GetFirst(f, object_, "$defs");
    GetFirst(f, object_, "type");
    GetFirst(f, object_, "additionalProperties");
    GetFour(object_[0], object_[1], object_[2], object_[3], "type");
    GetFour(object_[0], object_[1], object_[2], object_[3], "additionalProperties");
    EntriesInOrder(rules, defs, fields);
  }

  /**
    For the schema of organization plans: the checker passes its translation, nothing is lost, and
    exactly the dropped bounds are.
   */
  lemma PlanSchemaTranslated(rules: Rules, kinds: seq<string>, decisions: seq<string>, reasons: seq<string>, x: Json)
    ensures var plan := Plan(kinds, decisions, reasons);
            && Violations(ToStrict(plan), "$") == []
            && (Accepts(rules, Written, plan, x) ==> Accepts(rules, Written, ToStrict(plan), x))
            && (Accepts(rules, Written, ToStrict(plan), x) <==> Accepts(rules, Lax, plan, x))
  {
    hide Plan, DEFINITIONS, InOrder, Accepts, WellFormed, Untouched, AdmitsNull, Conforms, ToStrict, Violations;
    var plan := Plan(kinds, decisions, reasons);
    PlanInOrder(rules, DEFINITIONS, kinds, decisions, reasons);
    DefinitionsInOrder(rules, DEFINITIONS);
    PlanMeets(rules, plan);
    TranslationPassesChecker(plan, "$");
    ExactlyTheLaxReading(rules, plan, x);
    if Accepts(rules, Written, plan, x) {
      NothingLost(rules, plan, x);
    }
  }

  lemma PlanMeets(rules: Rules, plan: Json)
    requires InOrder(rules, DEFINITIONS, plan) && MapInOrder(rules, DEFINITIONS, DEFINITIONS)
    requires plan.Obj? && Get(plan.fields, "$defs") == Some(Obj(DEFINITIONS)) && !NullableRoot(plan)
    ensures WellFormedRoot(plan) && AdmitsNull(rules, DefsOf(plan), plan) &&
        DefsAdmitNull(rules, DefsOf(plan)) && Conforms(plan)
  {
    hide WellFormed, Untouched, AdmitsNull, Conforms, DEFINITIONS;
    MapUntouched(rules, DEFINITIONS, DEFINITIONS);
  }

  // ----- the schema itself -----

  lemma PlanFields(kinds: seq<string>, decisions: seq<string>, reasons: seq<string>)
    ensures var plan, properties := Plan(kinds, decisions, reasons), Properties(kinds, decisions, reasons);
            && plan.Obj? && |plan.fields| == 5 && plan.fields[2] == Field("properties", Obj(properties))
            && |properties| == 8
            && properties[0] == Field("alternatives", AtMost(Patterned(CANDIDATE), 2.0))
            && properties[3] == Field("destination", ObjectSchema(DESTINATION))
  {
  }

  /** What is wrong with a property of a property's object is listed under its path. */
  lemma PropertyListed(v: Json, path: string, i: nat, j: nat, mark: string)
    requires v.Obj? && i < |v.fields| && v.fields[i].key == "properties" && v.fields[i].value.Obj?
    requires j < |v.fields[i].value.fields| && !SchemaPlaces.Literal(v.fields[i].value.fields[j].key)
    ensures var f := v.fields[i].value.fields[j];
            var at := path + "." + "properties" + "." + f.key;
            && Reach(v, path, [Entry(i), Entry(j)]) == Some((f.value, at))
            && (Offends(f.value, mark) ==> at + "." + mark in Violations(v, path))
  {
    hide Violations, Offends;
    var properties, f := v.fields[i].value, v.fields[i].value.fields[j];
    var p := path + "." + "properties";
    var at := p + "." + f.key;
    ReachTwo(v, path, Entry(i), Entry(j));
    if Offends(f.value, mark) {
      assert Marks(v, path, [Entry(i), Entry(j)], mark, at + "." + mark);
      ExactlyTheOffending(v, path, at + "." + mark);
    }
  }

  lemma ReachTwo(v: Json, path: string, s: Step, t: Step)
    requires Steps(v, s) && Steps(Inside(v, s), t)
    ensures Reach(v, path, [s, t]) == Some((Inside(Inside(v, s), t), PathOf(Inside(v, s), t, PathOf(v, s, path))))
  {
    hide PathOf;
    var x, p := Inside(v, s), PathOf(v, s, path);
    assert [s, t][1..] == [t] && [t][1..] == [];
    assert Reach(v, path, [s, t]) == Reach(x, p, [t]);
    assert Reach(x, p, [t]) == Reach(Inside(x, t), PathOf(x, t, p), []);
  }

  /** What is listed at a place inside is listed from outside. */
  lemma {:induction false} ListedOutside(v: Json, path: string, route: Route, x: string)
    requires Reach(v, path, route).Some?
    requires x in Violations(Reach(v, path, route).value.0, Reach(v, path, route).value.1)
    ensures x in Violations(v, path)
    decreases route
  {
    hide Violations, Offending;
    if route != [] {
      var inner, p := Inside(v, route[0]), PathOf(v, route[0], path);
      ListedOutside(inner, p, route[1..], x);
      ExactlyTheOffending(inner, p, x);
      OffendingSplits(v, path, x);
      ExactlyTheOffending(v, path, x);
    }
  }

  const ALTERNATIVES_BOUND := "$.properties.alternatives.maxItems"
  const CANDIDATE_TYPES := "$.properties.destination.properties.candidateId.type[]"

  lemma SpelledAlternatives()
    ensures "$" + "." + "properties" + "." + "alternatives" + "." + "maxItems" == ALTERNATIVES_BOUND
  {
  }

  lemma SpelledDestination()
    ensures "$" + "." + "properties" + "." + "destination" == "$.properties.destination"
  {
  }

  lemma SpelledCandidate()
    ensures "$.properties.destination" + "." + "properties" + "." + "candidateId" + "." + "type[]" == CANDIDATE_TYPES
  {
  }

  lemma AlternativesOffend(items: Json, most: real)
    ensures Offends(AtMost(items, most), "maxItems")
  {
    assert AtMost(items, most).fields[1].key == "maxItems";
  }

  lemma CandidateOffends()
    ensures Offends(NULLABLE_CANDIDATE, "type[]")
  {
    var fields := NULLABLE_CANDIDATE.fields;
    assert fields[1] == Field("type", STRING_OR_NULL) && fields[0].key != "type";
    assert Under(fields, "type", STRING_OR_NULL);
  }

  /** Untranslated, the checker refuses it, for its bounds and for its type arrays. */
  lemma PlanSchemaRefused(kinds: seq<string>, decisions: seq<string>, reasons: seq<string>)
    ensures ALTERNATIVES_BOUND in Violations(Plan(kinds, decisions, reasons), "$")
    ensures CANDIDATE_TYPES in Violations(Plan(kinds, decisions, reasons), "$")
  {
    hide Violations, Plan, Properties, DEFINITIONS, Patterned, NEW_NOTE, Reach, Offends, ALTERNATIVES_BOUND, AtMost,
      CANDIDATE_TYPES;
    var plan := Plan(kinds, decisions, reasons);
    var destination := ObjectSchema(DESTINATION);
    PlanFields(kinds, decisions, reasons);
    SpelledAlternatives();
    SpelledDestination();
    SpelledCandidate();
    AlternativesOffend(Patterned(CANDIDATE), 2.0);
    PropertyListed(plan, "$", 2, 0, "maxItems");
    CandidateOffends();
    assert destination.fields[1] == Field("properties", Obj(DESTINATION));
    PropertyListed(destination, "$.properties.destination", 1, 0, "type[]");
    PropertyListed(plan, "$", 2, 3, "type[]");
    ListedOutside(plan, "$", [Entry(2), Entry(3)], CANDIDATE_TYPES);
  }
}
