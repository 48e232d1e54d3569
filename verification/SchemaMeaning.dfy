/**
  What schemas mean, and what the translation preserves of it: the validation keywords of
  JSON Schema Validation 2020-12 sections 6.1 and 6.3 to 6.5 and the monotone applicators of
  section 10 of JSON Schema Core 2020-12, with references into `$defs`.
 */
module SchemaMeaning {
  import opened Wrappers
  import opened StrictSchema

  /** What this model takes from elsewhere: regular expressions, the equality of JSON values, and
      the length of a string in characters. */
  datatype Rules = Rules(matches: (string, string) -> bool, same: (Json, Json) -> bool, length: string -> nat)

  predicate HasType(x: Json, t: string) {
    match x
    case Null => t == "null"
    case Bool(_) => t == "boolean"
    case Num(n) => t == "number" || (t == "integer" && n == n.Floor as real)
    case Str(_) => t == "string"
    case Arr(_) => t == "array"
    case Obj(_) => t == "object"
  }

  predicate TypeOk(value: Json, x: Json) {
    match value
    case Str(t) => HasType(x, t)
    case Arr(ts) => exists i | 0 <= i < |ts| :: ts[i].Str? && HasType(x, ts[i].s)
    case _ => false
  }

  /**
    Three readings of a schema. As written; lax, without the entries the translation drops; and as
    derived, where besides a nullable type array accepts null outright, properties and definitions
    named after dropped keywords are not there, and a literal is what the translation makes of it.
   */
  datatype Reading = Written | Lax | Derived

  /** Whether a reading sees an entry of a map of properties or definitions. */
  predicate Stays(r: Reading, f: Field) {
    r.Derived? ==> Kept(f)
  }

  function Literal(r: Reading, v: Json): Json {
    if r.Derived? then ToStrict(v) else v
  }

  /** A nullable type array takes null whatever stands beside it. */
  predicate NullTaken(r: Reading, fields: seq<Field>, x: Json) {
    r.Derived? && x.Null? && Nullable(Get(fields, "type"))
  }

  /** The property names a schema lists. */
  function Listed(r: Reading, fields: seq<Field>): set<string> {
    match Get(fields, "properties")
    case Some(Obj(props)) => set i | 0 <= i < |props| && Stays(r, props[i]) :: props[i].key
    case _ => {}
  }

  const REF_PREFIX := "#/$defs/"

  predicate PointsTo(ref: Json, name: string) {
    ref == Str(REF_PREFIX + name)
  }

  /** Keywords that bound sizes or match patterns; none of them looks into a subschema. */
  predicate BoundOk(rules: Rules, key: string, value: Json, x: Json) {
    if key == "minLength" then x.Str? && value.Num? ==> value.n <= rules.length(x.s) as real
    else if key == "maxLength" then x.Str? && value.Num? ==> rules.length(x.s) as real <= value.n
    else if key == "pattern" then x.Str? && value.Str? ==> rules.matches(value.s, x.s)
    else if key == "minItems" then x.Arr? && value.Num? ==> value.n <= |x.items| as real
    else if key == "maxItems" then x.Arr? && value.Num? ==> |x.items| as real <= value.n
    else true
  }

  predicate PlainOk(rules: Rules, r: Reading, key: string, value: Json, x: Json) {
    if key == "type" then TypeOk(value, x)
    else if key == "enum" then
      value.Arr? && exists i | 0 <= i < |value.items| :: rules.same(Literal(r, value.items[i]), x)
    else if key == "const" then rules.same(Literal(r, value), x)
    else if key == "required" then
      x.Obj? && value.Arr? ==>
          forall i | 0 <= i < |value.items| && value.items[i].Str? :: Get(x.fields, value.items[i].s).Some?
    else true
  }

  /** `x` is valid under the schema `s` when references are followed to depth `depth`. */
  ghost predicate Valid(rules: Rules, r: Reading, defs: seq<Field>, depth: nat, s: Json, x: Json)
    decreases depth, s, 1
  {
    match s
    case Bool(b) => b
    case Obj(fields) =>
      || NullTaken(r, fields, x)
      || forall i | 0 <= i < |fields| :: EntryValid(rules, r, defs, depth, fields[i], Listed(r, fields), x)
    case _ => false
  }

  ghost predicate EntryValid(rules: Rules, r: Reading, defs: seq<Field>, depth: nat, f: Field, listed: set<string>,
                             x: Json)
    decreases depth, f, 0
  {
    if !r.Written? && !Kept(f) then true
    else
      && BoundOk(rules, f.key, f.value, x)
      && PlainOk(rules, r, f.key, f.value, x)
      && (if f.key == "properties" then
            x.Obj? && f.value.Obj? ==>
              forall i | 0 <= i < |f.value.fields| && Stays(r, f.value.fields[i])
                         && Get(x.fields, f.value.fields[i].key).Some? ::
                Valid(rules, r, defs, depth, f.value.fields[i].value, Get(x.fields, f.value.fields[i].key).value)
          else if f.key == "additionalProperties" then
            x.Obj? ==> forall i | 0 <= i < |x.fields| && x.fields[i].key !in listed ::
                         Valid(rules, r, defs, depth, f.value, x.fields[i].value)
          else if f.key == "items" then
            x.Arr? ==> forall i | 0 <= i < |x.items| :: Valid(rules, r, defs, depth, f.value, x.items[i])
          else if f.key == "anyOf" then
            f.value.Arr? && exists i | 0 <= i < |f.value.items| :: Valid(rules, r, defs, depth, f.value.items[i], x)
          else if f.key == "allOf" then
            f.value.Arr? && forall i | 0 <= i < |f.value.items| :: Valid(rules, r, defs, depth, f.value.items[i], x)
          else if f.key == "$ref" then
            depth > 0 && exists j | 0 <= j < |defs| :: Stays(r, defs[j]) && PointsTo(f.value, defs[j].key)
                                                      && Valid(rules, r, defs, depth - 1, defs[j].value, x)
          else true)
  }

  // ----- the schemas the theorems speak about -----

  predicate Understood(key: string) {
    key in {"type", "enum", "const", "required", "properties", "additionalProperties", "items", "anyOf", "allOf",
            "$ref", "minLength", "maxLength", "pattern", "minItems", "maxItems", "$defs", "title", "description"}
  }

  /** Keys are unique in a JSON object; only the uniqueness of `type` matters here. */
  predicate OneType(fields: seq<Field>) {
    forall i, j | 0 <= i < j < |fields| && fields[i].key == "type" :: fields[j].key != "type"
  }

  /** A schema of the fragment: each keyword has a value of its kind. */
  ghost predicate WellFormed(s: Json)
    decreases s
  {
    match s
    case Bool(_) => true
    case Obj(fields) => OneType(fields) && forall i | 0 <= i < |fields| :: EntryWellFormed(fields[i])
    case _ => false
  }

  ghost predicate EntryWellFormed(f: Field)
    decreases f
  {
    && Understood(f.key)
    && (f.key == "properties" ==> f.value.Obj? && SchemaMap(f.value.fields))
    && (f.key == "items" || f.key == "additionalProperties" ==> WellFormed(f.value))
    && (f.key == "anyOf" || f.key == "allOf" ==>
          f.value.Arr? && forall i | 0 <= i < |f.value.items| :: WellFormed(f.value.items[i]))
  }

  /** A map from names to schemas. */
  ghost predicate SchemaMap(fields: seq<Field>)
    decreases fields
  {
    forall i | 0 <= i < |fields| :: WellFormed(fields[i].value)
  }

  /** No property is named after a dropped keyword, and the translation fixes every literal. */
  ghost predicate Untouched(s: Json)
    decreases s
  {
    s.Obj? ==> forall i | 0 <= i < |s.fields| :: EntryUntouched(s.fields[i])
  }

  ghost predicate EntryUntouched(f: Field)
    decreases f
  {
    && (f.key == "enum" && f.value.Arr? ==>
          forall i | 0 <= i < |f.value.items| :: ToStrict(f.value.items[i]) == f.value.items[i])
    && (f.key == "const" ==> ToStrict(f.value) == f.value)
    && (f.key == "properties" && f.value.Obj? ==> UntouchedMap(f.value.fields))
    && (f.key == "items" || f.key == "additionalProperties" ==> Untouched(f.value))
    && ((f.key == "anyOf" || f.key == "allOf") && f.value.Arr? ==>
          forall i | 0 <= i < |f.value.items| :: Untouched(f.value.items[i]))
  }

  ghost predicate UntouchedMap(fields: seq<Field>)
    decreases fields
  {
    forall i | 0 <= i < |fields| :: Kept(fields[i]) && Untouched(fields[i].value)
  }

  /** Accepted when references are followed far enough. */
  ghost predicate Means(rules: Rules, r: Reading, defs: seq<Field>, s: Json, x: Json) {
    exists d: nat :: Valid(rules, r, defs, d, s, x)
  }

  /** Beside every nullable type array the other keywords accept null. */
  ghost predicate AdmitsNull(rules: Rules, defs: seq<Field>, s: Json)
    decreases s
  {
    match s
    case Obj(fields) =>
      && (Nullable(Get(fields, "type")) ==> Means(rules, Lax, defs, Obj(Untyped(fields)), Null))
      && forall i | 0 <= i < |fields| :: EntryAdmitsNull(rules, defs, fields[i])
    case _ => true
  }

  ghost predicate EntryAdmitsNull(rules: Rules, defs: seq<Field>, f: Field)
    decreases f
  {
    && (f.key == "properties" && f.value.Obj? ==>
          forall i | 0 <= i < |f.value.fields| :: AdmitsNull(rules, defs, f.value.fields[i].value))
    && (f.key == "items" || f.key == "additionalProperties" ==> AdmitsNull(rules, defs, f.value))
    && ((f.key == "anyOf" || f.key == "allOf") && f.value.Arr? ==>
          forall i | 0 <= i < |f.value.items| :: AdmitsNull(rules, defs, f.value.items[i]))
  }

  ghost predicate EntriesAdmitNull(rules: Rules, defs: seq<Field>, fields: seq<Field>) {
    forall i | 0 <= i < |fields| :: EntryAdmitsNull(rules, defs, fields[i])
  }

  ghost predicate DefsAdmitNull(rules: Rules, defs: seq<Field>) {
    forall i | 0 <= i < |defs| :: AdmitsNull(rules, defs, defs[i].value)
  }

  ghost predicate NullFrom(rules: Rules, defs: seq<Field>, k: nat, fields: seq<Field>) {
    forall n: nat | k <= n :: Valid(rules, Lax, defs, n, Obj(Untyped(fields)), Null)
  }

  /** The same with one depth for all of them, and from there on. */
  ghost predicate AdmitsNullBy(rules: Rules, defs: seq<Field>, k: nat, s: Json)
    decreases s
  {
    match s
    case Obj(fields) =>
      && (Nullable(Get(fields, "type")) ==> NullFrom(rules, defs, k, fields))
      && forall i | 0 <= i < |fields| :: EntryAdmitsNullBy(rules, defs, k, fields[i])
    case _ => true
  }

  ghost predicate EntryAdmitsNullBy(rules: Rules, defs: seq<Field>, k: nat, f: Field)
    decreases f
  {
    && (f.key == "properties" && f.value.Obj? ==>
          forall i | 0 <= i < |f.value.fields| :: AdmitsNullBy(rules, defs, k, f.value.fields[i].value))
    && (f.key == "items" || f.key == "additionalProperties" ==> AdmitsNullBy(rules, defs, k, f.value))
    && ((f.key == "anyOf" || f.key == "allOf") && f.value.Arr? ==>
          forall i | 0 <= i < |f.value.items| :: AdmitsNullBy(rules, defs, k, f.value.items[i]))
  }

  ghost predicate EntriesAdmitNullBy(rules: Rules, defs: seq<Field>, k: nat, fields: seq<Field>) {
    forall i | 0 <= i < |fields| :: EntryAdmitsNullBy(rules, defs, k, fields[i])
  }

  ghost predicate DefsAdmitNullBy(rules: Rules, defs: seq<Field>, k: nat) {
    forall i | 0 <= i < |defs| :: AdmitsNullBy(rules, defs, k, defs[i].value)
  }

  // ----- maps -----

  lemma {:induction false} GetMember(fields: seq<Field>, key: string)
    ensures Get(fields, key).Some? ==>
        exists i | 0 <= i < |fields| :: fields[i].key == key && Get(fields, key).value == fields[i].value
    ensures Get(fields, key).None? ==> forall i | 0 <= i < |fields| :: fields[i].key != key
  {
    if fields != [] {
      GetMember(fields[1..], key);
      if fields[0].key != key && Get(fields, key).Some? {
        var i :| 0 <= i < |fields[1..]| && fields[1..][i].key == key && Get(fields, key).value == fields[1..][i].value;
        assert fields[i + 1] == fields[1..][i];
      }
      if fields[0].key == key {
        assert fields[0].key == key && Get(fields, key).value == fields[0].value;
      }
    }
  }

  lemma NotNullableMap(fields: seq<Field>)
    requires SchemaMap(fields)
    ensures !Nullable(Get(fields, "type")) && ToStrict(Obj(fields)) == Obj(StrictFields(fields))
  {
    hide StrictFields;
    GetMember(fields, "type");
    if Get(fields, "type").Some? {
      var i :| 0 <= i < |fields| && fields[i].key == "type" && Get(fields, "type").value == fields[i].value;
      assert WellFormed(fields[i].value);
    }
  }

  lemma PropertiesWellFormed(fields: seq<Field>)
    requires WellFormed(Obj(fields)) && Get(fields, "properties").Some?
    ensures var p := Get(fields, "properties").value; p.Obj? && SchemaMap(p.fields)
  {
    hide SchemaMap;
    GetMember(fields, "properties");
    var i :| 0 <= i < |fields| && fields[i].key == "properties" && Get(fields, "properties").value == fields[i].value;
    assert EntryWellFormed(fields[i]);
  }

  /** The derived schema lists what the derived reading of the source lists. */
  lemma ListedTranslated(fields: seq<Field>)
    requires WellFormed(Obj(fields))
    ensures Listed(Written, StrictFields(fields)) == Listed(Derived, fields)
  {
    hide WellFormed, SchemaMap, Nullable, Kept, StrictFields;
    StrictFieldsGet(fields, "properties");
    if Get(fields, "properties").Some? {
      PropertiesWellFormed(fields);
      var props := Get(fields, "properties").value.fields;
      NotNullableMap(props);
      NamesTranslated(props);
    }
  }

  lemma NamesTranslated(props: seq<Field>)
    ensures var out := StrictFields(props);
            (set i | 0 <= i < |out| && Stays(Written, out[i]) :: out[i].key) ==
            (set i | 0 <= i < |props| && Stays(Derived, props[i]) :: props[i].key)
  {
    hide Kept, StrictFields;
    var out := StrictFields(props);
    StrictFieldsMembers(props);
    forall i | 0 <= i < |out|
      ensures exists j | 0 <= j < |props| :: Kept(props[j]) && props[j].key == out[i].key
    {
      assert out[i] in out;
    }
    forall j | 0 <= j < |props| && Kept(props[j]) ensures exists i | 0 <= i < |out| :: out[i].key == props[j].key {
      assert Field(props[j].key, ToStrict(props[j].value)) in out;
    }
  }

  // ----- entries without subschemas -----

  lemma TypesAgree(value: Json, x: Json)
    ensures TypeOk(ToStrict(value), x) <==> TypeOk(value, x)
  {
    if value.Arr? {
      forall i | 0 <= i < |value.items|
        ensures StrictItems(value.items)[i].Str? <==> value.items[i].Str?
        ensures value.items[i].Str? ==> StrictItems(value.items)[i] == value.items[i]
      {
        StrictItemAt(value.items, i);
      }
    }
  }

  lemma LiteralsAgree(rules: Rules, key: string, value: Json, x: Json)
    requires key == "enum" || key == "required"
    ensures PlainOk(rules, Written, key, ToStrict(value), x) <==> PlainOk(rules, Derived, key, value, x)
  {
    if value.Arr? {
      forall i | 0 <= i < |value.items|
        ensures StrictItems(value.items)[i] == ToStrict(value.items[i])
        ensures ToStrict(value.items[i]).Str? <==> value.items[i].Str?
      {
        StrictItemAt(value.items, i);
      }
    }
  }

  lemma PlainAgrees(rules: Rules, f: Field, x: Json)
    requires Kept(f)
    ensures BoundOk(rules, f.key, ToStrict(f.value), x) <==> BoundOk(rules, f.key, f.value, x)
    ensures PlainOk(rules, Written, f.key, ToStrict(f.value), x) <==> PlainOk(rules, Derived, f.key, f.value, x)
  {
    hide TypeOk;
    if f.key == "type" {
      TypesAgree(f.value, x);
    } else if f.key == "enum" || f.key == "required" {
      LiteralsAgree(rules, f.key, f.value, x);
    }
  }

  // ----- from one reading and depth to another -----

  /** Whatever `r` accepts at depth `d`, `q` accepts at depth `e`. */
  ghost predicate Carries(rules: Rules, r: Reading, q: Reading, defs: seq<Field>, d: nat, e: nat, s: Json) {
    forall x :: Valid(rules, r, defs, d, s, x) ==> Valid(rules, q, defs, e, s, x)
  }

  /** The same of every schema an entry looks into. */
  ghost predicate PartsCarry(rules: Rules, r: Reading, q: Reading, defs: seq<Field>, d: nat, e: nat, f: Field) {
    && (f.key == "properties" && f.value.Obj? ==>
          forall i | 0 <= i < |f.value.fields| && Stays(q, f.value.fields[i]) ::
            Carries(rules, r, q, defs, d, e, f.value.fields[i].value))
    && (f.key == "items" || f.key == "additionalProperties" ==> Carries(rules, r, q, defs, d, e, f.value))
    && ((f.key == "anyOf" || f.key == "allOf") && f.value.Arr? ==>
          forall i | 0 <= i < |f.value.items| :: Carries(rules, r, q, defs, d, e, f.value.items[i]))
    && (f.key == "$ref" && d > 0 ==>
          e > 0 && forall j | 0 <= j < |defs| :: Carries(rules, r, q, defs, d - 1, e - 1, defs[j].value))
  }

  /** `q` sees no more in a map than `r`, and reads literals as `r` does. */
  ghost predicate SeesLess(r: Reading, q: Reading, defs: seq<Field>, f: Field) {
    && (r == q || r.Written? || !q.Written?)
    && (f.key == "properties" && f.value.Obj? ==>
          forall i | 0 <= i < |f.value.fields| && Stays(q, f.value.fields[i]) :: Stays(r, f.value.fields[i]))
    && (f.key == "$ref" ==> forall j | 0 <= j < |defs| && Stays(r, defs[j]) :: Stays(q, defs[j]))
    && (f.key == "const" ==> Literal(r, f.value) == Literal(q, f.value))
    && (f.key == "enum" && f.value.Arr? ==>
          forall i | 0 <= i < |f.value.items| :: Literal(r, f.value.items[i]) == Literal(q, f.value.items[i]))
  }

  lemma EntryCarries(rules: Rules, r: Reading, q: Reading, defs: seq<Field>, d: nat, e: nat, f: Field,
                     listed: set<string>, known: set<string>, x: Json)
    requires PartsCarry(rules, r, q, defs, d, e, f) && SeesLess(r, q, defs, f)
    requires x.Obj? ==> forall i | 0 <= i < |x.fields| && x.fields[i].key in listed :: x.fields[i].key in known
    requires EntryValid(rules, r, defs, d, f, listed, x)
    ensures EntryValid(rules, q, defs, e, f, known, x)
  {
    hide Valid, BoundOk, PlainOk, Literal, Stays, Kept, PointsTo, Get, SeesLess, PartsCarry;
    PlainCarries(rules, r, q, defs, f, x);
    if f.key == "properties" {
      PropertiesCarry(rules, r, q, defs, d, e, f, listed, known, x);
    } else if f.key == "items" || f.key == "additionalProperties" {
      InnerCarries(rules, r, q, defs, d, e, f);
    } else if f.key == "anyOf" || f.key == "allOf" {
      ChoicesCarry(rules, r, q, defs, d, e, f, x);
    } else if f.key == "$ref" {
      ReferencesCarry(rules, r, q, defs, d, e, f, x);
    }
  }

  lemma PlainCarries(rules: Rules, r: Reading, q: Reading, defs: seq<Field>, f: Field, x: Json)
    requires SeesLess(r, q, defs, f)
    ensures r == q || r.Written? || !q.Written?
    ensures PlainOk(rules, r, f.key, f.value, x) ==> PlainOk(rules, q, f.key, f.value, x)
  {
    hide Literal, Stays, TypeOk, Get;
  }

  lemma PropertiesCarry(rules: Rules, r: Reading, q: Reading, defs: seq<Field>, d: nat, e: nat, f: Field,
                        listed: set<string>, known: set<string>, x: Json)
    requires f.key == "properties"
    requires PartsCarry(rules, r, q, defs, d, e, f) && SeesLess(r, q, defs, f)
    requires EntryValid(rules, r, defs, d, f, listed, x)
    ensures EntryValid(rules, q, defs, e, f, known, x)
  {
    hide Valid, BoundOk, Stays, Get;
    if x.Obj? && f.value.Obj? {
      var props := f.value.fields;
      forall i | 0 <= i < |props| && Stays(q, props[i]) && Get(x.fields, props[i].key).Some?
        ensures Valid(rules, q, defs, e, props[i].value, Get(x.fields, props[i].key).value)
      {
        assert Carries(rules, r, q, defs, d, e, props[i].value);
      }
    }
  }

  lemma InnerCarries(rules: Rules, r: Reading, q: Reading, defs: seq<Field>, d: nat, e: nat, f: Field)
    requires (f.key == "items" || f.key == "additionalProperties") && PartsCarry(rules, r, q, defs, d, e, f)
    ensures forall y :: Valid(rules, r, defs, d, f.value, y) ==> Valid(rules, q, defs, e, f.value, y)
  {
    hide Valid;
  }

  lemma ChoicesCarry(rules: Rules, r: Reading, q: Reading, defs: seq<Field>, d: nat, e: nat, f: Field, x: Json)
    requires (f.key == "anyOf" || f.key == "allOf") && PartsCarry(rules, r, q, defs, d, e, f)
    ensures f.value.Arr? ==> forall i | 0 <= i < |f.value.items| ::
                Valid(rules, r, defs, d, f.value.items[i], x) ==> Valid(rules, q, defs, e, f.value.items[i], x)
  {
    hide Valid;
  }

  lemma ReferencesCarry(rules: Rules, r: Reading, q: Reading, defs: seq<Field>, d: nat, e: nat, f: Field, x: Json)
    requires f.key == "$ref" && PartsCarry(rules, r, q, defs, d, e, f) && SeesLess(r, q, defs, f)
    ensures d > 0 ==> e > 0 && forall j | 0 <= j < |defs| && Stays(r, defs[j]) ::
              Stays(q, defs[j])
              && (Valid(rules, r, defs, d - 1, defs[j].value, x) ==> Valid(rules, q, defs, e - 1, defs[j].value, x))
  {
    hide Valid, Stays, Literal;
  }

  /**
    When a reading `q` accepts what `r` does: reading the same or leaving out entries always, and
    between the lax and the derived reading where names and literals are untouched, and on the way
    back where null is admitted from depth `k` on.
   */
  ghost predicate Widens(rules: Rules, r: Reading, q: Reading, defs: seq<Field>, k: nat, s: Json) {
    || r == q
    || (r.Written? && q.Lax?)
    || (!q.Written? && WellFormed(s) && Untouched(s) && (r.Derived? ==> AdmitsNullBy(rules, defs, k, s)))
  }

  ghost predicate DefsWiden(rules: Rules, r: Reading, q: Reading, defs: seq<Field>, k: nat) {
    && (r == q || (r.Written? && q.Lax?) || UntouchedMap(defs))
    && forall i | 0 <= i < |defs| :: Widens(rules, r, q, defs, k, defs[i].value)
  }

  ghost predicate EntryWidens(rules: Rules, r: Reading, q: Reading, defs: seq<Field>, k: nat, f: Field) {
    || r == q
    || (r.Written? && q.Lax?)
    || (!q.Written? && EntryWellFormed(f) && EntryUntouched(f) && (r.Derived? ==> EntryAdmitsNullBy(rules, defs, k, f)))
  }

  lemma {:induction false} Widening(rules: Rules, r: Reading, q: Reading, defs: seq<Field>, d: nat, e: nat, k: nat,
                                    s: Json)
    requires d + k <= e && Widens(rules, r, q, defs, k, s) && DefsWiden(rules, r, q, defs, k)
    ensures Carries(rules, r, q, defs, d, e, s)
    decreases d, s, 1
  {
    hide EntryValid, EntryWellFormed, EntryUntouched, EntryAdmitsNullBy, DefsWiden, Listed, Nullable;
    if s.Obj? {
      forall i | 0 <= i < |s.fields| ensures PartsCarry(rules, r, q, defs, d, e, s.fields[i]) {
        PartsWiden(rules, r, q, defs, d, e, k, s.fields[i]);
      }
      forall x | Valid(rules, r, defs, d, s, x) ensures Valid(rules, q, defs, e, s, x) {
        if NullTaken(r, s.fields, x) {
          if !q.Derived? {
            NullAdmitted(rules, defs, e, k, s.fields);
          }
        } else {
          EntriesWiden(rules, r, q, defs, d, e, k, s.fields, x);
        }
      }
    }
  }

  lemma EntriesWiden(rules: Rules, r: Reading, q: Reading, defs: seq<Field>, d: nat, e: nat, k: nat,
                     fields: seq<Field>, x: Json)
    requires Widens(rules, r, q, defs, k, Obj(fields)) && DefsWiden(rules, r, q, defs, k)
    requires forall i | 0 <= i < |fields| :: PartsCarry(rules, r, q, defs, d, e, fields[i])
    requires Valid(rules, r, defs, d, Obj(fields), x) && !NullTaken(r, fields, x)
    ensures Valid(rules, q, defs, e, Obj(fields), x)
  {
    hide EntryValid, Widens, EntryWidens, DefsWiden, PartsCarry, SeesLess, Listed, Nullable;
    SameListed(rules, r, q, defs, k, fields);
    forall i | 0 <= i < |fields| ensures EntryValid(rules, q, defs, e, fields[i], Listed(q, fields), x) {
      EntryWidensAt(rules, r, q, defs, k, fields, i);
      NothingAdded(rules, r, q, defs, k, fields[i]);
      EntryCarries(rules, r, q, defs, d, e, fields[i], Listed(r, fields), Listed(q, fields), x);
    }
  }

  lemma EntryWidensAt(rules: Rules, r: Reading, q: Reading, defs: seq<Field>, k: nat, fields: seq<Field>, i: nat)
    requires Widens(rules, r, q, defs, k, Obj(fields)) && i < |fields|
    ensures EntryWidens(rules, r, q, defs, k, fields[i])
  {
    hide EntryWellFormed, EntryUntouched, EntryAdmitsNullBy;
  }

  lemma NothingAdded(rules: Rules, r: Reading, q: Reading, defs: seq<Field>, k: nat, f: Field)
    requires EntryWidens(rules, r, q, defs, k, f) && DefsWiden(rules, r, q, defs, k)
    ensures SeesLess(r, q, defs, f)
  {
    hide EntryWellFormed, EntryAdmitsNullBy, Kept, Untouched, Widens;
    if r != q && !(r.Written? && q.Lax?) {
      assert f.key == "properties" && f.value.Obj? ==> UntouchedMap(f.value.fields);
    }
  }

  lemma SameListed(rules: Rules, r: Reading, q: Reading, defs: seq<Field>, k: nat, fields: seq<Field>)
    requires Widens(rules, r, q, defs, k, Obj(fields))
    ensures Listed(r, fields) <= Listed(q, fields)
  {
    hide EntryWellFormed, EntryAdmitsNullBy, Kept;
    GetMember(fields, "properties");
    if q.Derived? && !r.Derived? && Get(fields, "properties").Some? {
      var i :| 0 <= i < |fields| && fields[i].key == "properties" && Get(fields, "properties").value == fields[i].value;
      assert EntryUntouched(fields[i]);
    }
  }

  lemma {:induction false} PartsWiden(rules: Rules, r: Reading, q: Reading, defs: seq<Field>, d: nat, e: nat, k: nat,
                                      f: Field)
    requires d + k <= e && EntryWidens(rules, r, q, defs, k, f) && DefsWiden(rules, r, q, defs, k)
    ensures PartsCarry(rules, r, q, defs, d, e, f)
    decreases d, f, 0
  {
    hide Carries, WellFormed, Untouched, AdmitsNullBy;
    if f.key == "properties" && f.value.Obj? {
      forall i | 0 <= i < |f.value.fields| ensures Carries(rules, r, q, defs, d, e, f.value.fields[i].value) {
        if r != q && !(r.Written? && q.Lax?) {
          assert SchemaMap(f.value.fields) && UntouchedMap(f.value.fields);
        }
        Widening(rules, r, q, defs, d, e, k, f.value.fields[i].value);
      }
    } else if f.key == "items" || f.key == "additionalProperties" {
      Widening(rules, r, q, defs, d, e, k, f.value);
    } else if (f.key == "anyOf" || f.key == "allOf") && f.value.Arr? {
      forall i | 0 <= i < |f.value.items| ensures Carries(rules, r, q, defs, d, e, f.value.items[i]) {
        Widening(rules, r, q, defs, d, e, k, f.value.items[i]);
      }
    } else if f.key == "$ref" && d > 0 {
      forall j | 0 <= j < |defs| ensures Carries(rules, r, q, defs, d - 1, e - 1, defs[j].value) {
        Widening(rules, r, q, defs, d - 1, e - 1, k, defs[j].value);
      }
    }
  }

  lemma NullAdmitted(rules: Rules, defs: seq<Field>, e: nat, k: nat, fields: seq<Field>)
    requires WellFormed(Obj(fields)) && Nullable(Get(fields, "type")) && k <= e
    requires AdmitsNullBy(rules, defs, k, Obj(fields))
    ensures Valid(rules, Lax, defs, e, Obj(fields), Null)
  {
    hide Valid, EntryWellFormed, EntryAdmitsNullBy;
    TypeSplits(rules, Lax, defs, e, fields, Null);
    var types := Get(fields, "type").value.items;
    var i :| 0 <= i < |types| && types[i] == Str("null");
    assert TypeOk(Arr(types), Null);
  }

  /** Following references further only makes a schema accept more. */
  lemma DeeperAccepts(rules: Rules, r: Reading, defs: seq<Field>, d: nat, e: nat, s: Json, x: Json)
    requires d <= e && Valid(rules, r, defs, d, s, x)
    ensures Valid(rules, r, defs, e, s, x)
  {
    hide Valid;
    Widening(rules, r, r, defs, d, e, 0, s);
    assert Carries(rules, r, r, defs, d, e, s);
  }

  /** Leaving out the dropped entries only makes a schema accept more. */
  lemma LaxWeaker(rules: Rules, defs: seq<Field>, depth: nat, s: Json, x: Json)
    requires Valid(rules, Written, defs, depth, s, x)
    ensures Valid(rules, Lax, defs, depth, s, x)
  {
    hide Valid;
    Widening(rules, Written, Lax, defs, depth, depth, 0, s);
    assert Carries(rules, Written, Lax, defs, depth, depth, s);
  }

  /** With names and literals untouched, so does the derived reading. */
  lemma DerivedWeaker(rules: Rules, defs: seq<Field>, depth: nat, s: Json, x: Json)
    requires SchemaMap(defs) && WellFormed(s) && UntouchedMap(defs) && Untouched(s)
    requires Valid(rules, Lax, defs, depth, s, x)
    ensures Valid(rules, Derived, defs, depth, s, x)
  {
    hide Valid, WellFormed, Untouched;
    Widening(rules, Lax, Derived, defs, depth, depth, 0, s);
    assert Carries(rules, Lax, Derived, defs, depth, depth, s);
  }

  /** The derived reading accepts no more than the lax one, `k` deeper, where null is admitted by `k`. */
  lemma DerivedAdmitted(rules: Rules, defs: seq<Field>, depth: nat, k: nat, s: Json, x: Json)
    requires SchemaMap(defs) && WellFormed(s) && UntouchedMap(defs) && Untouched(s)
    requires AdmitsNullBy(rules, defs, k, s) && DefsAdmitNullBy(rules, defs, k)
    requires Valid(rules, Derived, defs, depth, s, x)
    ensures Valid(rules, Lax, defs, depth + k, s, x)
  {
    hide Valid, WellFormed, Untouched, AdmitsNullBy;
    Widening(rules, Derived, Lax, defs, depth, depth + k, k, s);
    assert Carries(rules, Derived, Lax, defs, depth, depth + k, s);
  }

  // ----- one depth for every null -----

  lemma {:induction false} DeeperAdmits(rules: Rules, defs: seq<Field>, k: nat, l: nat, s: Json)
    requires k <= l && AdmitsNullBy(rules, defs, k, s)
    ensures AdmitsNullBy(rules, defs, l, s)
    decreases s, 1
  {
    hide Valid;
    if s.Obj? {
      forall i | 0 <= i < |s.fields| ensures EntryAdmitsNullBy(rules, defs, l, s.fields[i]) {
        DeeperEntryAdmits(rules, defs, k, l, s.fields[i]);
      }
    }
  }

  lemma {:induction false} DeeperEntryAdmits(rules: Rules, defs: seq<Field>, k: nat, l: nat, f: Field)
    requires k <= l && EntryAdmitsNullBy(rules, defs, k, f)
    ensures EntryAdmitsNullBy(rules, defs, l, f)
    decreases f, 0
  {
    hide AdmitsNullBy;
    if f.key == "properties" && f.value.Obj? {
      forall i | 0 <= i < |f.value.fields| ensures AdmitsNullBy(rules, defs, l, f.value.fields[i].value) {
        DeeperAdmits(rules, defs, k, l, f.value.fields[i].value);
      }
    } else if f.key == "items" || f.key == "additionalProperties" {
      DeeperAdmits(rules, defs, k, l, f.value);
    } else if (f.key == "anyOf" || f.key == "allOf") && f.value.Arr? {
      forall i | 0 <= i < |f.value.items| ensures AdmitsNullBy(rules, defs, l, f.value.items[i]) {
        DeeperAdmits(rules, defs, k, l, f.value.items[i]);
      }
    }
  }

  function Max(a: nat, b: nat): nat {
    if a < b then b else a
  }

  /** Finitely many nullable type arrays have one depth at which all their siblings accept null. */
  lemma {:induction false} OneDepth(rules: Rules, defs: seq<Field>, s: Json) returns (k: nat)
    requires AdmitsNull(rules, defs, s)
    ensures AdmitsNullBy(rules, defs, k, s)
    decreases s, 2
  {
    hide Valid, EntryAdmitsNull, EntryAdmitsNullBy;
    k := 0;
    if s.Obj? {
      k := OneDepthOfEntries(rules, defs, s.fields);
      if Nullable(Get(s.fields, "type")) {
        var d: nat :| Valid(rules, Lax, defs, d, Obj(Untyped(s.fields)), Null);
        forall n: nat | Max(d, k) <= n ensures Valid(rules, Lax, defs, n, Obj(Untyped(s.fields)), Null) {
          DeeperAccepts(rules, Lax, defs, d, n, Obj(Untyped(s.fields)), Null);
        }
        forall i | 0 <= i < |s.fields| ensures EntryAdmitsNullBy(rules, defs, Max(d, k), s.fields[i]) {
          DeeperEntryAdmits(rules, defs, k, Max(d, k), s.fields[i]);
        }
        k := Max(d, k);
      }
    }
  }

  lemma {:induction false} OneDepthOfEntries(rules: Rules, defs: seq<Field>, fields: seq<Field>) returns (k: nat)
    requires EntriesAdmitNull(rules, defs, fields)
    ensures EntriesAdmitNullBy(rules, defs, k, fields)
    decreases fields, 1
  {
    hide EntryAdmitsNull, EntryAdmitsNullBy;
    k := 0;
    if fields != [] {
      var last := |fields| - 1;
      assert forall i | 0 <= i < last :: fields[..last][i] == fields[i];
      var rest := OneDepthOfEntries(rules, defs, fields[..last]);
      var own := OneDepthOfEntry(rules, defs, fields[last]);
      k := Max(rest, own);
      forall i | 0 <= i < |fields| ensures EntryAdmitsNullBy(rules, defs, k, fields[i]) {
        if i < last {
          assert EntryAdmitsNullBy(rules, defs, rest, fields[..last][i]);
          DeeperEntryAdmits(rules, defs, rest, k, fields[i]);
        } else {
          DeeperEntryAdmits(rules, defs, own, k, fields[i]);
        }
      }
    }
  }

  lemma {:induction false} OneDepthOfEntry(rules: Rules, defs: seq<Field>, f: Field) returns (k: nat)
    requires EntryAdmitsNull(rules, defs, f)
    ensures EntryAdmitsNullBy(rules, defs, k, f)
    decreases f, 0
  {
    hide AdmitsNull, AdmitsNullBy;
    k := 0;
    if f.key == "properties" && f.value.Obj? {
      k := OneDepthOfMap(rules, defs, f.value.fields);
    } else if f.key == "items" || f.key == "additionalProperties" {
      k := OneDepth(rules, defs, f.value);
    } else if (f.key == "anyOf" || f.key == "allOf") && f.value.Arr? {
      k := OneDepthOfItems(rules, defs, f.value.items);
    }
  }

  lemma {:induction false} OneDepthOfMap(rules: Rules, defs: seq<Field>, fields: seq<Field>) returns (k: nat)
    requires forall i | 0 <= i < |fields| :: AdmitsNull(rules, defs, fields[i].value)
    ensures forall i | 0 <= i < |fields| :: AdmitsNullBy(rules, defs, k, fields[i].value)
    decreases fields, 3
  {
    hide AdmitsNull, AdmitsNullBy;
    k := 0;
    if fields != [] {
      var last := |fields| - 1;
      assert forall i | 0 <= i < last :: fields[..last][i] == fields[i];
      var rest := OneDepthOfMap(rules, defs, fields[..last]);
      var own := OneDepth(rules, defs, fields[last].value);
      k := Max(rest, own);
      forall i | 0 <= i < |fields| ensures AdmitsNullBy(rules, defs, k, fields[i].value) {
        if i < last {
          assert AdmitsNullBy(rules, defs, rest, fields[..last][i].value);
          DeeperAdmits(rules, defs, rest, k, fields[i].value);
        } else {
          DeeperAdmits(rules, defs, own, k, fields[i].value);
        }
      }
    }
  }

  lemma {:induction false} OneDepthOfItems(rules: Rules, defs: seq<Field>, items: seq<Json>) returns (k: nat)
    requires forall i | 0 <= i < |items| :: AdmitsNull(rules, defs, items[i])
    ensures forall i | 0 <= i < |items| :: AdmitsNullBy(rules, defs, k, items[i])
    decreases items, 3
  {
    hide AdmitsNull, AdmitsNullBy;
    k := 0;
    if items != [] {
      var last := |items| - 1;
      assert forall i | 0 <= i < last :: items[..last][i] == items[i];
      var rest := OneDepthOfItems(rules, defs, items[..last]);
      var own := OneDepth(rules, defs, items[last]);
      k := Max(rest, own);
      forall i | 0 <= i < |items| ensures AdmitsNullBy(rules, defs, k, items[i]) {
        if i < last {
          assert AdmitsNullBy(rules, defs, rest, items[..last][i]);
          DeeperAdmits(rules, defs, rest, k, items[i]);
        } else {
          DeeperAdmits(rules, defs, own, k, items[i]);
        }
      }
    }
  }

  /** One depth for a schema and all definitions. */
  lemma OneDepthForAll(rules: Rules, defs: seq<Field>, s: Json) returns (k: nat)
    requires AdmitsNull(rules, defs, s) && DefsAdmitNull(rules, defs)
    ensures AdmitsNullBy(rules, defs, k, s) && DefsAdmitNullBy(rules, defs, k)
  {
    hide AdmitsNull, AdmitsNullBy;
    var own := OneDepth(rules, defs, s);
    var others := OneDepthOfMap(rules, defs, defs);
    k := Max(own, others);
    DeeperAdmits(rules, defs, own, k, s);
    forall i | 0 <= i < |defs| ensures AdmitsNullBy(rules, defs, k, defs[i].value) {
      DeeperAdmits(rules, defs, others, k, defs[i].value);
    }
  }

  // ----- nullable type arrays -----

  lemma TypeEntry(rules: Rules, r: Reading, defs: seq<Field>, depth: nat, t: Json, listed: set<string>, x: Json)
    ensures EntryValid(rules, r, defs, depth, Field("type", t), listed, x) <==> TypeOk(t, x)
  {
  }

  /** Every entry is valid. */
  ghost predicate AllValid(rules: Rules, r: Reading, defs: seq<Field>, depth: nat, fields: seq<Field>,
                           listed: set<string>, x: Json) {
    forall f | f in fields :: EntryValid(rules, r, defs, depth, f, listed, x)
  }

  lemma EntriesAsMembers(rules: Rules, r: Reading, defs: seq<Field>, depth: nat, fields: seq<Field>, x: Json)
    ensures Valid(rules, r, defs, depth, Obj(fields), x) <==>
            NullTaken(r, fields, x) || AllValid(rules, r, defs, depth, fields, Listed(r, fields), x)
  {
    if NullTaken(r, fields, x) {
    } else if Valid(rules, r, defs, depth, Obj(fields), x) {
      forall f | f in fields ensures EntryValid(rules, r, defs, depth, f, Listed(r, fields), x) {
        var i :| 0 <= i < |fields| && fields[i] == f;
      }
    } else {
      var i :| 0 <= i < |fields| && !EntryValid(rules, r, defs, depth, fields[i], Listed(r, fields), x);
      assert fields[i] in fields;
    }
  }

  /** A schema with a type means its type and the rest of it. */
  lemma TypeSplits(rules: Rules, r: Reading, defs: seq<Field>, depth: nat, fields: seq<Field>, x: Json)
    requires OneType(fields) && Get(fields, "type").Some?
    ensures Valid(rules, r, defs, depth, Obj(fields), x) <==>
            || NullTaken(r, fields, x)
            || (TypeOk(Get(fields, "type").value, x) && Valid(rules, r, defs, depth, Obj(Untyped(fields)), x))
  {
    hide Valid, EntryValid, TypeOk, Get, Untyped, Listed, OneType;
    var t := Get(fields, "type").value;
    TypeMember(fields);
    RestListed(r, fields);
    EntriesAsMembers(rules, r, defs, depth, fields, x);
    EntriesAsMembers(rules, r, defs, depth, Untyped(fields), x);
    TypeEntry(rules, r, defs, depth, t, Listed(r, fields), x);
  }

  lemma TypeMember(fields: seq<Field>)
    requires OneType(fields) && Get(fields, "type").Some?
    ensures forall f :: f in fields <==> f in Untyped(fields) || f == Field("type", Get(fields, "type").value)
  {
    var t := Get(fields, "type").value;
    GetMember(fields, "type");
    var i :| 0 <= i < |fields| && fields[i].key == "type" && t == fields[i].value;
    assert forall j | 0 <= j < |fields| && fields[j].key == "type" :: j == i;
    assert Field("type", t) in fields;
    UntypedMembers(fields);
  }

  /** Leaving out the type leaves the listed properties alone, and no nullable type array. */
  lemma RestListed(r: Reading, fields: seq<Field>)
    ensures Listed(r, Untyped(fields)) == Listed(r, fields)
    ensures forall x :: !NullTaken(r, Untyped(fields), x)
  {
    GetUntyped(fields, "properties");
    GetUntyped(fields, "type");
  }

  lemma BranchSplits(rules: Rules, r: Reading, defs: seq<Field>, depth: nat, fields: seq<Field>, t: Json, x: Json)
    requires t.Str?
    ensures Valid(rules, r, defs, depth, Branch(Untyped(fields), t), x) <==>
            TypeOk(t, x) && Valid(rules, r, defs, depth, Obj(Untyped(fields)), x)
  {
    hide Valid, EntryValid, TypeOk;
    var rest := Untyped(fields);
    var b := Branch(rest, t).fields;
    assert forall f :: f in b <==> f in rest || f == Field("type", t);
    GetBranch(fields, t, "properties");
    GetBranch(fields, t, "type");
    GetUntyped(fields, "properties");
    GetUntyped(fields, "type");
    EntriesAsMembers(rules, r, defs, depth, b, x);
    EntriesAsMembers(rules, r, defs, depth, rest, x);
    TypeEntry(rules, r, defs, depth, t, Listed(r, b), x);
  }

  lemma BranchWellFormed(fields: seq<Field>, t: Json)
    requires WellFormed(Obj(fields)) && t.Str?
    ensures WellFormed(Branch(Untyped(fields), t))
  {
    hide EntryWellFormed;
    UntypedMembers(fields);
    var b := Branch(Untyped(fields), t).fields;
    assert forall i | 0 <= i < |b| - 1 :: b[i] in Untyped(fields);
    forall i | 0 <= i < |b| ensures EntryWellFormed(b[i]) {
      if i < |b| - 1 {
        assert b[i] in fields;
        var j :| 0 <= j < |fields| && fields[j] == b[i];
      } else {
        TypeEntryWellFormed(t);
      }
    }
  }

  lemma TypeEntryWellFormed(t: Json)
    requires t.Str?
    ensures EntryWellFormed(Field("type", t))
  {
  }

  /** A union is valid where one of its members is. */
  lemma WrapperValid(rules: Rules, r: Reading, defs: seq<Field>, depth: nat, choices: seq<Json>, x: Json)
    ensures Valid(rules, r, defs, depth, Obj([Field("anyOf", Arr(choices))]), x) <==>
            exists i | 0 <= i < |choices| :: Valid(rules, r, defs, depth, choices[i], x)
  {
    hide Valid, EntryValid;
    var f := Field("anyOf", Arr(choices));
    SingleEntry(rules, r, defs, depth, f, x);
    ChoiceEntry(rules, r, defs, depth, "anyOf", choices, Listed(r, [f]), x);
  }

  lemma SingleEntry(rules: Rules, r: Reading, defs: seq<Field>, depth: nat, f: Field, x: Json)
    requires r.Derived? ==> f.key != "type"
    ensures Valid(rules, r, defs, depth, Obj([f]), x) <==> EntryValid(rules, r, defs, depth, f, Listed(r, [f]), x)
  {
    hide EntryValid, Listed;
    assert [f][0] == f && [f][1..] == [];
    assert f.key != "type" ==> Get([f], "type") == Get([f][1..], "type") == None;
  }

  lemma NullSchemaValid(rules: Rules, r: Reading, defs: seq<Field>, depth: nat, x: Json)
    ensures Valid(rules, r, defs, depth, NULL_SCHEMA, x) <==> x.Null?
  {
    var f := NULL_SCHEMA.fields[0];
    assert EntryValid(rules, r, defs, depth, f, Listed(r, NULL_SCHEMA.fields), x) <==> x.Null?;
  }

  lemma NullableShape(fields: seq<Field>) returns (choices: seq<Json>)
    requires Nullable(Get(fields, "type"))
    ensures ToStrict(Obj(fields)) == Obj([Field("anyOf", Arr(choices))])
    ensures var names := NonNull(Get(fields, "type").value.items);
            && |choices| == |names| + 1
            && (forall i | 0 <= i < |names| :: choices[i] == ToStrict(Branch(Untyped(fields), names[i])))
            && choices[|names|] == NULL_SCHEMA
  {
    var rest, names := Untyped(fields), NonNull(Get(fields, "type").value.items);
    choices := Branches(rest, names) + [NULL_SCHEMA];
    forall i | 0 <= i < |names| ensures choices[i] == ToStrict(Branch(rest, names[i])) {
      BranchAt(rest, names, i);
    }
  }

  /** The translation of a nullable schema accepts null and what some branch accepts. */
  lemma NullableTranslation(rules: Rules, defs: seq<Field>, depth: nat, fields: seq<Field>, x: Json)
    requires Nullable(Get(fields, "type"))
    ensures var names := NonNull(Get(fields, "type").value.items);
            Valid(rules, Written, defs, depth, ToStrict(Obj(fields)), x) <==>
            x.Null? || exists i | 0 <= i < |names| ::
                Valid(rules, Written, defs, depth, ToStrict(Branch(Untyped(fields), names[i])), x)
  {
    hide Valid, EntryValid, ToStrict, Untyped, NonNull, Get;
    var names := NonNull(Get(fields, "type").value.items);
    var choices := NullableShape(fields);
    WrapperValid(rules, Written, defs, depth, choices, x);
    NullSchemaValid(rules, Written, defs, depth, x);
    if x.Null? {
      assert Valid(rules, Written, defs, depth, choices[|names|], x);
    } else {
      forall i | 0 <= i < |choices| && Valid(rules, Written, defs, depth, choices[i], x)
        ensures exists k | 0 <= k < |names| ::
            Valid(rules, Written, defs, depth, ToStrict(Branch(Untyped(fields), names[k])), x)
      {
        assert i < |names|;
      }
      forall k | 0 <= k < |names| && Valid(rules, Written, defs, depth, ToStrict(Branch(Untyped(fields), names[k])), x)
        ensures exists i | 0 <= i < |choices| :: Valid(rules, Written, defs, depth, choices[i], x)
      {
        assert choices[k] == ToStrict(Branch(Untyped(fields), names[k]));
      }
    }
  }

  // ----- the translation -----

  /** The derived schema accepts, at each depth, what the derived reading of the source does. */
  ghost predicate Agree(rules: Rules, defs: seq<Field>, depth: nat, s: Json, x: Json) {
    Valid(rules, Written, StrictFields(defs), depth, ToStrict(s), x) <==> Valid(rules, Derived, defs, depth, s, x)
  }

  ghost predicate EntryAgree(rules: Rules, defs: seq<Field>, depth: nat, f: Field, listed: set<string>, x: Json) {
    EntryValid(rules, Written, StrictFields(defs), depth, Field(f.key, ToStrict(f.value)), listed, x) <==>
    EntryValid(rules, Derived, defs, depth, f, listed, x)
  }

  lemma NullableAgrees(rules: Rules, defs: seq<Field>, depth: nat, fields: seq<Field>, x: Json)
    requires OneType(fields) && Nullable(Get(fields, "type"))
    requires forall t: Json | t.Str? :: Agree(rules, defs, depth, Branch(Untyped(fields), t), x)
    ensures Agree(rules, defs, depth, Obj(fields), x)
  {
    hide Valid, ToStrict, StrictFields, Agree, TypeOk, Untyped, NonNull;
    NullableTranslation(rules, StrictFields(defs), depth, fields, x);
    TypeSplits(rules, Derived, defs, depth, fields, x);
    if x.Null? {
      assert NullTaken(Derived, fields, x);
    } else {
      SomeBranchAgrees(rules, defs, depth, fields, x);
    }
    Agreement(rules, defs, depth, Obj(fields), x);
  }

  lemma Agreement(rules: Rules, defs: seq<Field>, depth: nat, s: Json, x: Json)
    ensures Agree(rules, defs, depth, s, x) <==>
              (Valid(rules, Written, StrictFields(defs), depth, ToStrict(s), x) <==>
                 Valid(rules, Derived, defs, depth, s, x))
  {
  }

  lemma SomeBranchAgrees(rules: Rules, defs: seq<Field>, depth: nat, fields: seq<Field>, x: Json)
    requires Nullable(Get(fields, "type")) && !x.Null?
    requires forall t: Json | t.Str? :: Agree(rules, defs, depth, Branch(Untyped(fields), t), x)
    ensures var names := NonNull(Get(fields, "type").value.items);
            (exists n | 0 <= n < |names| ::
               Valid(rules, Written, StrictFields(defs), depth, ToStrict(Branch(Untyped(fields), names[n])), x)) <==>
            TypeOk(Get(fields, "type").value, x) && Valid(rules, Derived, defs, depth, Obj(Untyped(fields)), x)
  {
    hide Valid, ToStrict, StrictFields, Agree, HasType, Untyped, NonNull;
    var types := Get(fields, "type").value.items;
    var names, rest := NonNull(types), Untyped(fields);
    NonNullMembers(types);
    TypesAmongNames(types, x);
    forall n | 0 <= n < |names|
      ensures Valid(rules, Written, StrictFields(defs), depth, ToStrict(Branch(rest, names[n])), x) <==>
              HasType(x, names[n].s) && Valid(rules, Derived, defs, depth, Obj(rest), x)
    {
      assert names[n] in types;
      Agreement(rules, defs, depth, Branch(rest, names[n]), x);
      BranchSplits(rules, Derived, defs, depth, fields, names[n], x);
    }
  }

  lemma TypesAmongNames(types: seq<Json>, x: Json)
    requires !x.Null? && forall i | 0 <= i < |types| :: types[i].Str?
    ensures var names := NonNull(types);
            TypeOk(Arr(types), x) <==> exists n | 0 <= n < |names| :: HasType(x, names[n].s)
  {
    NonNullMembers(types);
    var names := NonNull(types);
    if TypeOk(Arr(types), x) {
      var i :| 0 <= i < |types| && types[i].Str? && HasType(x, types[i].s);
      assert types[i] in names;
    }
    if n :| 0 <= n < |names| && HasType(x, names[n].s) {
      assert names[n] in types;
    }
  }

  lemma EntriesAgree(rules: Rules, defs: seq<Field>, depth: nat, fields: seq<Field>, x: Json)
    requires WellFormed(Obj(fields)) && !Nullable(Get(fields, "type"))
    requires forall i | 0 <= i < |fields| && Kept(fields[i]) ::
        EntryAgree(rules, defs, depth, fields[i], Listed(Derived, fields), x)
    ensures Agree(rules, defs, depth, Obj(fields), x)
  {
    hide EntryValid, WellFormed, Listed, Kept, Valid, EntryAgree, StrictFields, Nullable, Get;
    var out := StrictFields(fields);
    ListedTranslated(fields);
    EntriesAsMembers(rules, Written, StrictFields(defs), depth, out, x);
    EntriesAsMembers(rules, Derived, defs, depth, fields, x);
    EntriesMatch(rules, defs, depth, fields, Listed(Derived, fields), x);
    assert ToStrict(Obj(fields)) == Obj(out);
  }

  lemma EntriesMatch(rules: Rules, defs: seq<Field>, depth: nat, fields: seq<Field>, listed: set<string>, x: Json)
    requires forall i | 0 <= i < |fields| && Kept(fields[i]) :: EntryAgree(rules, defs, depth, fields[i], listed, x)
    ensures AllValid(rules, Written, StrictFields(defs), depth, StrictFields(fields), listed, x) <==>
            AllValid(rules, Derived, defs, depth, fields, listed, x)
  {
    hide EntryValid, Kept, EntryAgree, StrictFields, ToStrict;
    var out := StrictFields(fields);
    StrictFieldsMembers(fields);
    if AllValid(rules, Derived, defs, depth, fields, listed, x) {
      forall g | g in out ensures EntryValid(rules, Written, StrictFields(defs), depth, g, listed, x) {
        var i :| 0 <= i < |fields| && Kept(fields[i]) && g == Field(fields[i].key, ToStrict(fields[i].value));
        EntryAgreement(rules, defs, depth, fields[i], listed, x);
        assert fields[i] in fields;
      }
    }
    if AllValid(rules, Written, StrictFields(defs), depth, out, listed, x) {
      forall f | f in fields ensures EntryValid(rules, Derived, defs, depth, f, listed, x) {
        var i :| 0 <= i < |fields| && fields[i] == f;
        EntryAgreement(rules, defs, depth, fields[i], listed, x);
        if Kept(f) {
          assert Field(f.key, ToStrict(f.value)) in out;
        }
      }
    }
  }

  lemma EntryAgreement(rules: Rules, defs: seq<Field>, depth: nat, f: Field, listed: set<string>, x: Json)
    ensures EntryAgree(rules, defs, depth, f, listed, x) <==>
              (EntryValid(rules, Written, StrictFields(defs), depth, Field(f.key, ToStrict(f.value)), listed, x) <==>
                 EntryValid(rules, Derived, defs, depth, f, listed, x))
    ensures !Kept(f) ==> EntryValid(rules, Derived, defs, depth, f, listed, x)
  {
  }

  lemma {:induction false} Agrees(rules: Rules, defs: seq<Field>, depth: nat, s: Json, x: Json)
    requires SchemaMap(defs) && WellFormed(s)
    ensures Agree(rules, defs, depth, s, x)
    decreases depth, Size(s), 1
  {
    if s.Obj? {
      var fields := s.fields;
      if Nullable(Get(fields, "type")) {
        forall t: Json | t.Str? ensures Agree(rules, defs, depth, Branch(Untyped(fields), t), x) {
          BranchSmaller(fields, t);
          BranchWellFormed(fields, t);
          Agrees(rules, defs, depth, Branch(Untyped(fields), t), x);
        }
        NullableAgrees(rules, defs, depth, fields, x);
      } else {
        forall i | 0 <= i < |fields| && Kept(fields[i])
          ensures EntryAgree(rules, defs, depth, fields[i], Listed(Derived, fields), x)
        {
          SizeField(fields, i);
          EntryAgrees(rules, defs, depth, fields[i], Listed(Derived, fields), x);
        }
        EntriesAgree(rules, defs, depth, fields, x);
      }
    }
  }

  lemma {:induction false} EntryAgrees(rules: Rules, defs: seq<Field>, depth: nat, f: Field, listed: set<string>,
                                       x: Json)
    requires SchemaMap(defs) && EntryWellFormed(f) && Kept(f)
    ensures EntryAgree(rules, defs, depth, f, listed, x)
    decreases depth, Size(f.value), 3
  {
    hide Valid, ToStrict, StrictFields, EntryAgree, SchemaMap, WellFormed;
    if f.key == "properties" {
      PropertiesAgree(rules, defs, depth, f, listed, x);
    } else if f.key == "additionalProperties" || f.key == "items" {
      InnerAgree(rules, defs, depth, f, listed, x);
    } else if f.key == "anyOf" || f.key == "allOf" {
      ChoicesAgree(rules, defs, depth, f, listed, x);
    } else if f.key == "$ref" {
      ReferencesAgree(rules, defs, depth, f, listed, x);
    } else {
      OthersAgree(rules, defs, depth, f, listed, x);
    }
  }

  lemma OthersAgree(rules: Rules, defs: seq<Field>, depth: nat, f: Field, listed: set<string>, x: Json)
    requires Kept(f) && f.key !in {"properties", "additionalProperties", "items", "anyOf", "allOf", "$ref"}
    ensures EntryAgree(rules, defs, depth, f, listed, x)
  {
    hide ToStrict, StrictFields, BoundOk, PlainOk, Valid;
    PlainAgrees(rules, f, x);
  }

  lemma {:induction false} InnerAgree(rules: Rules, defs: seq<Field>, depth: nat, f: Field, listed: set<string>,
                                      x: Json)
    requires SchemaMap(defs) && EntryWellFormed(f) && Kept(f) && (f.key == "additionalProperties" || f.key == "items")
    ensures EntryAgree(rules, defs, depth, f, listed, x)
    decreases depth, Size(f.value), 2
  {
    hide Valid, ToStrict, StrictFields, SchemaMap;
    PlainAgrees(rules, f, x);
    if f.key == "items" && x.Arr? {
      forall i | 0 <= i < |x.items| ensures Agree(rules, defs, depth, f.value, x.items[i]) {
        Agrees(rules, defs, depth, f.value, x.items[i]);
      }
    } else if f.key != "items" && x.Obj? {
      forall i | 0 <= i < |x.fields| ensures Agree(rules, defs, depth, f.value, x.fields[i].value) {
        Agrees(rules, defs, depth, f.value, x.fields[i].value);
      }
    }
  }

  lemma {:induction false} ChoicesAgree(rules: Rules, defs: seq<Field>, depth: nat, f: Field, listed: set<string>,
                                        x: Json)
    requires SchemaMap(defs) && EntryWellFormed(f) && (f.key == "anyOf" || f.key == "allOf")
    ensures EntryAgree(rules, defs, depth, f, listed, x)
    decreases depth, Size(f.value), 2
  {
    hide Valid, EntryValid, StrictFields, SchemaMap;
    var items := f.value.items;
    assert ToStrict(f.value) == Arr(StrictItems(items));
    forall i | 0 <= i < |items|
      ensures Agree(rules, defs, depth, items[i], x) && StrictItems(items)[i] == ToStrict(items[i])
    {
      SizeItem(items, i);
      StrictItemAt(items, i);
      Agrees(rules, defs, depth, items[i], x);
    }
    ChoiceEntry(rules, Derived, defs, depth, f.key, items, listed, x);
    ChoiceEntry(rules, Written, StrictFields(defs), depth, f.key, StrictItems(items), listed, x);
    ChoicesMatch(rules, defs, depth, items, x);
  }

  lemma ChoiceEntry(rules: Rules, r: Reading, defs: seq<Field>, depth: nat, key: string, items: seq<Json>,
                    listed: set<string>, x: Json)
    ensures key == "anyOf" ==>
              (EntryValid(rules, r, defs, depth, Field(key, Arr(items)), listed, x) <==>
                 exists i | 0 <= i < |items| :: Valid(rules, r, defs, depth, items[i], x))
    ensures key == "allOf" ==>
              (EntryValid(rules, r, defs, depth, Field(key, Arr(items)), listed, x) <==>
                 forall i | 0 <= i < |items| :: Valid(rules, r, defs, depth, items[i], x))
  {
    hide Valid;
  }

  lemma ChoicesMatch(rules: Rules, defs: seq<Field>, depth: nat, items: seq<Json>, x: Json)
    requires forall i | 0 <= i < |items| ::
               Agree(rules, defs, depth, items[i], x) && StrictItems(items)[i] == ToStrict(items[i])
    ensures var out := StrictItems(items);
            && ((exists i | 0 <= i < |out| :: Valid(rules, Written, StrictFields(defs), depth, out[i], x)) <==>
                  exists i | 0 <= i < |items| :: Valid(rules, Derived, defs, depth, items[i], x))
            && ((forall i | 0 <= i < |out| :: Valid(rules, Written, StrictFields(defs), depth, out[i], x)) <==>
                  forall i | 0 <= i < |items| :: Valid(rules, Derived, defs, depth, items[i], x))
  {
    hide Valid, StrictFields;
    var out := StrictItems(items);
    forall i | 0 <= i < |items|
      ensures Valid(rules, Written, StrictFields(defs), depth, out[i], x) <==>
              Valid(rules, Derived, defs, depth, items[i], x)
    {
      assert Agree(rules, defs, depth, items[i], x);
    }
  }

  /** A reference means a definition of that name, one level less deep. */
  lemma ReferenceEntry(rules: Rules, r: Reading, defs: seq<Field>, depth: nat, value: Json, listed: set<string>,
                       x: Json)
    ensures EntryValid(rules, r, defs, depth, Field("$ref", value), listed, x) <==>
              depth > 0 && exists f | f in defs :: Stays(r, f) && PointsTo(value, f.key)
                                                   && Valid(rules, r, defs, depth - 1, f.value, x)
  {
    hide Valid, PointsTo, Stays;
    assert EntryValid(rules, r, defs, depth, Field("$ref", value), listed, x) <==>
           depth > 0 && exists j | 0 <= j < |defs| :: Stays(r, defs[j]) && PointsTo(value, defs[j].key)
                                                      && Valid(rules, r, defs, depth - 1, defs[j].value, x);
  }

  lemma {:induction false} ReferencesAgree(rules: Rules, defs: seq<Field>, depth: nat, f: Field, listed: set<string>,
                                           x: Json)
    requires SchemaMap(defs) && f.key == "$ref"
    ensures EntryAgree(rules, defs, depth, f, listed, x)
    decreases depth, Size(f.value), 2
  {
    hide Valid, EntryValid, ToStrict, StrictFields, PointsTo, Kept;
    var out := StrictFields(defs);
    StrictFieldsMembers(defs);
    NameTranslated(f.value);
    ReferenceEntry(rules, Derived, defs, depth, f.value, listed, x);
    ReferenceEntry(rules, Written, out, depth, ToStrict(f.value), listed, x);
    if depth > 0 {
      forall j | 0 <= j < |defs|
        ensures Valid(rules, Written, out, depth - 1, ToStrict(defs[j].value), x) <==>
                Valid(rules, Derived, defs, depth - 1, defs[j].value, x)
      {
        Agrees(rules, defs, depth - 1, defs[j].value, x);
      }
    }
  }

  lemma NameTranslated(ref: Json)
    ensures forall name :: PointsTo(ToStrict(ref), name) <==> PointsTo(ref, name)
  {
  }

  /** A property map constrains the properties that an instance has. */
  lemma PropertiesEntry(rules: Rules, r: Reading, defs: seq<Field>, depth: nat, props: seq<Field>, listed: set<string>,
                        x: Json)
    ensures EntryValid(rules, r, defs, depth, Field("properties", Obj(props)), listed, x) <==>
              (x.Obj? ==> forall f | f in props && Stays(r, f) && Get(x.fields, f.key).Some? ::
                            Valid(rules, r, defs, depth, f.value, Get(x.fields, f.key).value))
  {
    hide Valid, Stays, Get;
  }

  lemma {:induction false} PropertiesAgree(rules: Rules, defs: seq<Field>, depth: nat, f: Field, listed: set<string>,
                                           x: Json)
    requires SchemaMap(defs) && EntryWellFormed(f) && f.key == "properties"
    ensures EntryAgree(rules, defs, depth, f, listed, x)
    decreases depth, Size(f.value), 2
  {
    hide Valid, EntryValid, StrictFields, Kept, Get;
    var props := f.value.fields;
    var out := StrictFields(props);
    NotNullableMap(props);
    StrictFieldsMembers(props);
    PropertiesEntry(rules, Derived, defs, depth, props, listed, x);
    PropertiesEntry(rules, Written, StrictFields(defs), depth, out, listed, x);
    if x.Obj? {
      forall i | 0 <= i < |props| && Get(x.fields, props[i].key).Some?
        ensures Agree(rules, defs, depth, props[i].value, Get(x.fields, props[i].key).value)
      {
        SizeField(props, i);
        Agrees(rules, defs, depth, props[i].value, Get(x.fields, props[i].key).value);
      }
    }
  }

  // ----- results -----

  /** The definitions a whole schema carries. */
  function DefsOf(root: Json): seq<Field> {
    if root.Obj? && Get(root.fields, "$defs").Some? && Get(root.fields, "$defs").value.Obj?
    then Get(root.fields, "$defs").value.fields
    else []
  }

  /** A whole schema accepts an instance. */
  ghost predicate Accepts(rules: Rules, r: Reading, root: Json, x: Json) {
    Means(rules, r, DefsOf(root), root, x)
  }

  predicate NullableRoot(root: Json) {
    root.Obj? && Nullable(Get(root.fields, "type"))
  }

  /** The definitions that are not left behind. */
  function DefsLeft(root: Json): seq<Field> {
    if NullableRoot(root) then [] else DefsOf(root)
  }

  /** A whole schema of the fragment, with its definitions. */
  ghost predicate WellFormedSchema(root: Json) {
    WellFormed(root) && SchemaMap(DefsOf(root))
  }

  /** One with names and literals untouched that keeps its definitions: not nullable at its root, or
      without any. */
  ghost predicate WellFormedRoot(root: Json) {
    && WellFormedSchema(root) && Untouched(root) && UntouchedMap(DefsOf(root))
    && (NullableRoot(root) ==> DefsOf(root) == [])
  }

  /** The derived schema carries the translated definitions, but none from a nullable root. */
  lemma DefsTranslated(root: Json)
    requires WellFormedSchema(root)
    ensures DefsOf(ToStrict(root)) == StrictFields(DefsLeft(root))
    ensures DefsOf(ToStrict(root)) == StrictFields(DefsOf(root)) <==>
            !NullableRoot(root) || StrictFields(DefsOf(root)) == []
  {
    hide WellFormed, SchemaMap, StrictFields;
    if NullableRoot(root) {
      NullableRootLosesDefinitions(root.fields);
      NothingTranslated();
    } else if root.Obj? {
      StrictFieldsGet(root.fields, "$defs");
      NotNullableMap(DefsOf(root));
      NothingTranslated();
    } else {
      NothingTranslated();
    }
  }

  lemma NothingTranslated()
    ensures StrictFields([]) == []
  {
  }

  /**
    What the derived schema means, whatever the source: it accepts exactly what the derived reading of
    the source does, under the definitions that are not left behind.
   */
  lemma TranslationMeaning(rules: Rules, root: Json, x: Json)
    requires WellFormedSchema(root)
    ensures Accepts(rules, Written, ToStrict(root), x) <==> Means(rules, Derived, DefsLeft(root), root, x)
  {
    hide Valid, WellFormed, ToStrict, StrictFields;
    DefsTranslated(root);
    TranslatedMeans(rules, DefsLeft(root), root, x);
  }

  /** The same below the root, under given definitions. */
  lemma TranslatedMeans(rules: Rules, defs: seq<Field>, s: Json, x: Json)
    requires SchemaMap(defs) && WellFormed(s)
    ensures Means(rules, Written, StrictFields(defs), ToStrict(s), x) <==> Means(rules, Derived, defs, s, x)
  {
    hide Valid, WellFormed, SchemaMap, ToStrict, StrictFields;
    forall d: nat
      ensures Valid(rules, Written, StrictFields(defs), d, ToStrict(s), x) <==> Valid(rules, Derived, defs, d, s, x)
    {
      Agrees(rules, defs, d, s, x);
    }
  }

  /** Nothing the source accepts is lost: every instance valid under it is valid under the derived
      schema, references included. */
  lemma NothingLost(rules: Rules, root: Json, x: Json)
    requires WellFormedRoot(root) && Accepts(rules, Written, root, x)
    ensures Accepts(rules, Written, ToStrict(root), x)
  {
    hide Valid, WellFormed, SchemaMap, ToStrict, Untouched, UntouchedMap;
    var d: nat :| Valid(rules, Written, DefsOf(root), d, root, x);
    LaxWeaker(rules, DefsOf(root), d, root, x);
    DerivedWeaker(rules, DefsOf(root), d, root, x);
    TranslationMeaning(rules, root, x);
  }

  /** The derived schema accepts exactly what the source accepts with the dropped entries ignored. */
  lemma ExactlyTheLaxReading(rules: Rules, root: Json, x: Json)
    requires WellFormedRoot(root) && AdmitsNull(rules, DefsOf(root), root) && DefsAdmitNull(rules, DefsOf(root))
    ensures Accepts(rules, Written, ToStrict(root), x) <==> Accepts(rules, Lax, root, x)
  {
    hide Valid, WellFormed, SchemaMap, ToStrict, AdmitsNull, DefsAdmitNull, Untouched, UntouchedMap;
    TranslationMeaning(rules, root, x);
    ReadingsAgree(rules, DefsOf(root), root, x);
  }

  /** Where null is admitted, and names and literals are untouched, the two readings are one. */
  lemma ReadingsAgree(rules: Rules, defs: seq<Field>, s: Json, x: Json)
    requires SchemaMap(defs) && WellFormed(s) && UntouchedMap(defs) && Untouched(s)
    requires AdmitsNull(rules, defs, s) && DefsAdmitNull(rules, defs)
    ensures Means(rules, Derived, defs, s, x) <==> Means(rules, Lax, defs, s, x)
  {
    hide Valid, WellFormed, SchemaMap, Untouched, UntouchedMap, AdmitsNull, DefsAdmitNull, AdmitsNullBy,
      DefsAdmitNullBy;
    if Means(rules, Lax, defs, s, x) {
      var d: nat :| Valid(rules, Lax, defs, d, s, x);
      DerivedWeaker(rules, defs, d, s, x);
    }
    if Means(rules, Derived, defs, s, x) {
      var d: nat :| Valid(rules, Derived, defs, d, s, x);
      var k := OneDepthForAll(rules, defs, s);
      DerivedAdmitted(rules, defs, d, k, s, x);
    }
  }

  /** The translation of a nullable schema accepts null; the source, its dropped entries ignored, does
      exactly if the keywords beside the type array do. */
  lemma NullAlwaysTaken(rules: Rules, defs: seq<Field>, fields: seq<Field>)
    requires WellFormed(Obj(fields)) && Nullable(Get(fields, "type"))
    ensures Means(rules, Written, StrictFields(defs), ToStrict(Obj(fields)), Null)
    ensures Means(rules, Lax, defs, Obj(fields), Null) <==> Means(rules, Lax, defs, Obj(Untyped(fields)), Null)
  {
    hide Valid, EntryWellFormed, ToStrict, StrictFields;
    NullableTranslation(rules, StrictFields(defs), 0, fields, Null);
    var types := Get(fields, "type").value.items;
    var i :| 0 <= i < |types| && types[i] == Str("null");
    assert TypeOk(Arr(types), Null);
    forall d: nat
      ensures Valid(rules, Lax, defs, d, Obj(fields), Null) <==> Valid(rules, Lax, defs, d, Obj(Untyped(fields)), Null)
    {
      TypeSplits(rules, Lax, defs, d, fields, Null);
    }
  }

  /** For a nullable schema whose parts are in order, the translation is exact if and only if the
      keywords beside the type array accept null. */
  lemma NullableExactIff(rules: Rules, defs: seq<Field>, fields: seq<Field>)
    requires SchemaMap(defs) && WellFormed(Obj(fields)) && UntouchedMap(defs) && Untouched(Obj(fields))
    requires Nullable(Get(fields, "type")) && EntriesAdmitNull(rules, defs, fields) && DefsAdmitNull(rules, defs)
    ensures Means(rules, Lax, defs, Obj(Untyped(fields)), Null) <==>
            forall x :: Means(rules, Written, StrictFields(defs), ToStrict(Obj(fields)), x) <==>
                        Means(rules, Lax, defs, Obj(fields), x)
  {
    hide Means, WellFormed, SchemaMap, Untouched, UntouchedMap, ToStrict, StrictFields, EntryAdmitsNull, DefsAdmitNull;
    NullAlwaysTaken(rules, defs, fields);
    if Means(rules, Lax, defs, Obj(Untyped(fields)), Null) {
      forall x ensures Means(rules, Written, StrictFields(defs), ToStrict(Obj(fields)), x) <==>
                       Means(rules, Lax, defs, Obj(fields), x)
      {
        TranslatedMeans(rules, defs, Obj(fields), x);
        ReadingsAgree(rules, defs, Obj(fields), x);
      }
    }
  }

  /** A schema that is nullable at its root leaves its definitions behind. */
  lemma NullableRootLosesDefinitions(fields: seq<Field>)
    requires Nullable(Get(fields, "type"))
    ensures DefsOf(ToStrict(Obj(fields))) == []
  {
    hide ToStrict;
    var choices := NullableShape(fields);
    var f := [Field("anyOf", Arr(choices))];
    assert f[1..] == [];
    assert Get(f, "$defs") == Get(f[1..], "$defs") == None;
  }
}
