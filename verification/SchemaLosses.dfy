/** Where the translation of schemas loses or adds instances, and exactly when. */
module SchemaLosses {
  import opened Wrappers
  import opened StrictSchema
  import opened SchemaMeaning

  // ----- properties named after dropped keywords -----

  /** No entry of a translated value is named after a dropped keyword. */
  lemma TranslatedNames(v: Json)
    requires ToStrict(v).Obj?
    ensures forall i | 0 <= i < |ToStrict(v).fields| :: !Unsupported(ToStrict(v).fields[i].key)
  {
    var out := ToStrict(v).fields;
    if !Nullable(Get(v.fields, "type")) {
      StrictFieldsMembers(v.fields);
      forall i | 0 <= i < |out| ensures !Unsupported(out[i].key) {
        assert out[i] in out;
      }
    }
  }

  lemma NothingListed(fields: seq<Field>, key: string)
    requires Unsupported(key)
    ensures key !in Listed(Written, StrictFields(fields))
  {
    StrictFieldsGet(fields, "properties");
    var p := Get(fields, "properties");
    if p.Some? && ToStrict(p.value).Obj? {
      TranslatedNames(p.value);
    }
  }

  /** A closed additional-properties entry refuses every object with a key that is not listed. */
  lemma ClosedEntry(rules: Rules, defs: seq<Field>, depth: nat, fields: seq<Field>, x: Json, i: nat)
    requires Field("additionalProperties", Bool(false)) in fields
    requires x.Obj? && i < |x.fields| && x.fields[i].key !in Listed(Written, fields)
    ensures !Valid(rules, Written, defs, depth, Obj(fields), x)
  {
    var k :| 0 <= k < |fields| && fields[k] == Field("additionalProperties", Bool(false));
    assert !Valid(rules, Written, defs, depth, Bool(false), x.fields[i].value);
    assert !EntryValid(rules, Written, defs, depth, fields[k], Listed(Written, fields), x);
  }

  lemma ClosedPlain(rules: Rules, defs: seq<Field>, depth: nat, fields: seq<Field>, x: Json, i: nat)
    requires Closed(fields) && !Nullable(Get(fields, "type"))
    requires x.Obj? && i < |x.fields| && Unsupported(x.fields[i].key)
    ensures !Valid(rules, Written, defs, depth, ToStrict(Obj(fields)), x)
  {
    hide Valid, Listed, Nullable;
    GetMember(fields, "additionalProperties");
    var j :| 0 <= j < |fields| && fields[j].key == "additionalProperties" && fields[j].value == Bool(false);
    StrictFieldsMembers(fields);
    KeptEntry(fields[j]);
    assert Field(fields[j].key, ToStrict(fields[j].value)) in StrictFields(fields);
    NothingListed(fields, x.fields[i].key);
    ClosedEntry(rules, defs, depth, StrictFields(fields), x, i);
  }

  lemma KeptEntry(f: Field)
    requires f == Field("additionalProperties", Bool(false))
    ensures Kept(f) && ToStrict(f.value) == f.value
  {
  }

  /** The translation of any closed schema refuses every object with a key named after a dropped keyword. */
  lemma ClosedRefusesDroppedNames(rules: Rules, defs: seq<Field>, depth: nat, fields: seq<Field>, x: Json, i: nat)
    requires Closed(fields) && x.Obj? && i < |x.fields| && Unsupported(x.fields[i].key)
    ensures !Valid(rules, Written, defs, depth, ToStrict(Obj(fields)), x)
  {
    hide Valid, Closed, Unsupported;
    if Nullable(Get(fields, "type")) {
      var names, rest := NonNull(Get(fields, "type").value.items), Untyped(fields);
      NullableTranslation(rules, defs, depth, fields, x);
      forall k | 0 <= k < |names| ensures !Valid(rules, Written, defs, depth, ToStrict(Branch(rest, names[k])), x) {
        BranchClosed(fields, names[k]);
        ClosedPlain(rules, defs, depth, Branch(rest, names[k]).fields, x, i);
      }
    } else {
      ClosedPlain(rules, defs, depth, fields, x, i);
    }
  }

  lemma BranchClosed(fields: seq<Field>, t: Json)
    requires t.Str? && Closed(fields)
    ensures Closed(Branch(Untyped(fields), t).fields) && !Nullable(Get(Branch(Untyped(fields), t).fields, "type"))
  {
    GetBranch(fields, t, "additionalProperties");
    GetBranch(fields, t, "type");
  }

  // ----- sparing the property maps at every level -----

  /** The schema without properties named after dropped keywords, at every level. */
  function Spare(s: Json): (r: Json)
    ensures s.Obj? <==> r.Obj?
    decreases s, 1
  {
    if s.Obj? then Obj(SpareFields(s.fields)) else s
  }

  function SpareFields(fields: seq<Field>): seq<Field>
    decreases fields
  {
    if fields == [] then [] else [SpareEntry(fields[0])] + SpareFields(fields[1..])
  }

  function SpareEntry(f: Field): Field
    decreases f
  {
    match f.value
    case Obj(fields) =>
      if f.key == "properties" then Field(f.key, Obj(SpareMap(fields)))
      else if f.key == "items" || f.key == "additionalProperties" then Field(f.key, Obj(SpareFields(fields)))
      else f
    case Arr(items) => if f.key == "anyOf" || f.key == "allOf" then Field(f.key, Arr(SpareItems(items))) else f
    case _ => f
  }

  function SpareMap(props: seq<Field>): seq<Field>
    decreases props
  {
    if props == [] then []
    else if Unsupported(props[0].key) then SpareMap(props[1..])
    else [Field(props[0].key, Spare(props[0].value))] + SpareMap(props[1..])
  }

  function SpareItems(items: seq<Json>): seq<Json>
    decreases items
  {
    if items == [] then [] else [Spare(items[0])] + SpareItems(items[1..])
  }

  /** Such properties make no difference to the translation. */
  lemma {:induction false} SameTranslation(s: Json)
    requires WellFormed(s)
    ensures ToStrict(Spare(s)) == ToStrict(s)
    decreases Size(s), 1, 0
  {
    hide EntryWellFormed, StrictFields, NonNull, Untyped, SpareFields, SpareEntry, Branches;
    if s.Obj? {
      SparedGet(s.fields, "type");
      if Nullable(Get(s.fields, "type")) {
        var names := NonNull(Get(s.fields, "type").value.items);
        forall k | 0 <= k < |names|
          ensures Branches(Untyped(SpareFields(s.fields)), names)[k] == Branches(Untyped(s.fields), names)[k]
        {
          BranchAt(Untyped(s.fields), names, k);
          BranchAt(Untyped(SpareFields(s.fields)), names, k);
          SparedBranch(s.fields, names[k]);
          BranchSmaller(s.fields, names[k]);
          BranchWellFormed(s.fields, names[k]);
          SameTranslation(Branch(Untyped(s.fields), names[k]));
        }
        assert Branches(Untyped(SpareFields(s.fields)), names) == Branches(Untyped(s.fields), names);
      } else {
        SameFields(s.fields);
      }
    }
  }

  lemma {:induction false} SameFields(fields: seq<Field>)
    requires forall i | 0 <= i < |fields| :: EntryWellFormed(fields[i])
    ensures StrictFields(SpareFields(fields)) == StrictFields(fields)
    decreases SizeFields(fields), 2, |fields|
  {
    hide EntryWellFormed, SpareEntry, Kept, ToStrict;
    if fields != [] {
      SameEntry(fields[0]);
      SameFields(fields[1..]);
      assert SpareFields(fields)[1..] == SpareFields(fields[1..]);
    }
  }

  lemma {:induction false} SameEntry(f: Field)
    requires EntryWellFormed(f)
    ensures ToStrict(SpareEntry(f).value) == ToStrict(f.value) && Kept(SpareEntry(f)) == Kept(f)
    ensures SpareEntry(f).key == f.key
    decreases Size(f.value) + 1, 0, 0
  {
    hide WellFormed, SchemaMap, ToStrict, SpareMap, SpareItems, StrictItems;
    if f.key == "properties" {
      SameMap(f.value.fields);
    } else if f.key == "items" || f.key == "additionalProperties" {
      SameTranslation(f.value);
    } else if f.key == "anyOf" || f.key == "allOf" {
      SameItems(f.value.items);
      ArrayTranslation(f.value.items);
      ArrayTranslation(SpareItems(f.value.items));
    }
  }

  lemma ArrayTranslation(items: seq<Json>)
    ensures ToStrict(Arr(items)) == Arr(StrictItems(items))
  {
  }

  lemma {:induction false} SameItems(items: seq<Json>)
    requires forall i | 0 <= i < |items| :: WellFormed(items[i])
    ensures StrictItems(SpareItems(items)) == StrictItems(items)
    decreases SizeItems(items) + 1, 2, |items|
  {
    hide WellFormed, ToStrict, Spare;
    if items != [] {
      SameTranslation(items[0]);
      SameItems(items[1..]);
      assert SpareItems(items)[1..] == SpareItems(items[1..]);
    }
  }

  lemma {:induction false} SameMap(props: seq<Field>)
    requires SchemaMap(props)
    ensures ToStrict(Obj(SpareMap(props))) == ToStrict(Obj(props))
    decreases SizeFields(props) + 1, 3, 0
  {
    hide StrictFields, SpareMap, SchemaMap;
    NotNullableMap(props);
    SparedMapTypes(props);
    SameMapFields(props);
  }

  lemma SparedMapTypes(props: seq<Field>)
    requires SchemaMap(props)
    ensures !Nullable(Get(SpareMap(props), "type"))
  {
    SparedMapGet(props, "type");
    NotNullableMap(props);
  }

  lemma {:induction false} SparedMapGet(props: seq<Field>, key: string)
    requires !Unsupported(key)
    ensures Get(SpareMap(props), key) == match Get(props, key) case None => None case Some(v) => Some(Spare(v))
  {
    if props != [] {
      SparedMapGet(props[1..], key);
      if !Unsupported(props[0].key) {
        assert SpareMap(props)[1..] == SpareMap(props[1..]);
      }
    }
  }

  lemma {:induction false} SameMapFields(props: seq<Field>)
    requires SchemaMap(props)
    ensures StrictFields(SpareMap(props)) == StrictFields(props)
    decreases SizeFields(props) + 1, 2, |props|
  {
    hide WellFormed, ToStrict, Spare;
    if props != [] {
      SchemaMapRest(props);
      SameTranslation(props[0].value);
      SameMapFields(props[1..]);
      SchemaKept(props[0]);
      if !Unsupported(props[0].key) {
        assert SpareMap(props)[1..] == SpareMap(props[1..]);
        SchemaKept(Field(props[0].key, Spare(props[0].value)));
      }
    }
  }

  lemma SchemaMapRest(props: seq<Field>)
    requires SchemaMap(props) && props != []
    ensures SchemaMap(props[1..]) && WellFormed(props[0].value)
    ensures Spare(props[0].value).Bool? || Spare(props[0].value).Obj?
  {
    hide EntryWellFormed;
    forall i | 0 <= i < |props[1..]| ensures WellFormed(props[1..][i].value) {
      assert props[1..][i] == props[i + 1];
    }
  }

  lemma SchemaKept(f: Field)
    ensures f.value.Bool? || f.value.Obj? || WellFormed(f.value) ==> (Kept(f) <==> !Unsupported(f.key))
  {
  }

  lemma SpareKeepsTypes(f: Field)
    ensures SpareEntry(f).key == f.key && (f.key == "type" ==> SpareEntry(f) == f)
  {
  }

  lemma {:induction false} SparedGet(fields: seq<Field>, key: string)
    requires key == "type"
    ensures Get(SpareFields(fields), key) == Get(fields, key)
  {
    hide SpareEntry;
    if fields != [] {
      SpareKeepsTypes(fields[0]);
      SparedGet(fields[1..], key);
      assert SpareFields(fields)[1..] == SpareFields(fields[1..]);
    }
  }

  lemma {:induction false} SparedUntyped(fields: seq<Field>)
    ensures Untyped(SpareFields(fields)) == SpareFields(Untyped(fields))
  {
    hide SpareEntry;
    if fields != [] {
      SpareKeepsTypes(fields[0]);
      SparedUntyped(fields[1..]);
      assert SpareFields(fields)[1..] == SpareFields(fields[1..]);
    }
  }

  lemma {:induction false} SparedAppend(fields: seq<Field>, f: Field)
    ensures SpareFields(fields + [f]) == SpareFields(fields) + [SpareEntry(f)]
  {
    hide SpareEntry;
    if fields == [] {
      assert (fields + [f])[1..] == [];
    } else {
      SparedAppend(fields[1..], f);
      assert (fields + [f])[1..] == fields[1..] + [f];
    }
  }

  lemma SparedBranch(fields: seq<Field>, t: Json)
    ensures Branch(Untyped(SpareFields(fields)), t) == Spare(Branch(Untyped(fields), t))
  {
    hide SpareFields, SpareEntry, Untyped;
    SparedUntyped(fields);
    SparedAppend(Untyped(fields), Field("type", t));
    SpareKeepsTypes(Field("type", t));
  }

  lemma PlainTranslation(fields: seq<Field>)
    requires !Nullable(Get(fields, "type"))
    ensures ToStrict(Obj(fields)) == Obj(StrictFields(fields))
  {
  }

  // ----- what is lost with them -----

  /** Every entry is untouched, but for names in the property map. */
  ghost predicate UntouchedBelow(f: Field) {
    if f.key == "properties" && f.value.Obj? then
      forall i | 0 <= i < |f.value.fields| && Kept(f.value.fields[i]) :: Untouched(f.value.fields[i].value)
    else EntryUntouched(f)
  }

  lemma PartsBelow(rules: Rules, defs: seq<Field>, d: nat, f: Field)
    requires SchemaMap(defs) && UntouchedMap(defs) && EntryWellFormed(f) && UntouchedBelow(f)
    ensures PartsCarry(rules, Written, Derived, defs, d, d, f) && SeesLess(Written, Derived, defs, f)
  {
    hide Carries, WellFormed, Untouched;
    assert DefsWiden(rules, Written, Derived, defs, 0);
    if f.key == "properties" {
      var props := f.value.fields;
      assert SchemaMap(props);
      forall i | 0 <= i < |props| && Stays(Derived, props[i])
        ensures Carries(rules, Written, Derived, defs, d, d, props[i].value)
      {
        Widening(rules, Written, Derived, defs, d, d, 0, props[i].value);
      }
    } else {
      assert EntryWidens(rules, Written, Derived, defs, 0, f);
      PartsWiden(rules, Written, Derived, defs, d, d, 0, f);
      NothingAdded(rules, Written, Derived, defs, 0, f);
    }
  }

  /** What the schema for additional properties makes of the keys named after dropped keywords. */
  ghost predicate RestTakes(rules: Rules, defs: seq<Field>, d: nat, fields: seq<Field>, x: Json) {
    x.Obj? ==> forall i, k | 0 <= i < |x.fields| && Unsupported(x.fields[i].key)
                             && 0 <= k < |fields| && fields[k].key == "additionalProperties" ::
                 Valid(rules, Derived, defs, d, fields[k].value, x.fields[i].value)
  }

  lemma RestEntry(rules: Rules, r: Reading, defs: seq<Field>, d: nat, f: Field, listed: set<string>, x: Json)
    requires f.key == "additionalProperties"
    ensures EntryValid(rules, r, defs, d, f, listed, x) <==>
              (x.Obj? ==> forall i | 0 <= i < |x.fields| && x.fields[i].key !in listed ::
                            Valid(rules, r, defs, d, f.value, x.fields[i].value))
  {
    hide Valid;
  }

  lemma ListedNames(fields: seq<Field>, key: string)
    requires WellFormed(Obj(fields))
    ensures Unsupported(key) ==> key !in Listed(Derived, fields)
    ensures key in Listed(Written, fields) && !Unsupported(key) ==> key in Listed(Derived, fields)
  {
    if Get(fields, "properties").Some? {
      PropertiesWellFormed(fields);
    }
  }

  /**
    What is lost with top-level names: of the instances a schema accepts, its translation accepts exactly
    those whose keys named after dropped keywords hold what the schema for additional properties takes.
   */
  lemma DroppedNamesFallToTheRest(rules: Rules, defs: seq<Field>, d: nat, fields: seq<Field>, x: Json)
    requires SchemaMap(defs) && UntouchedMap(defs) && WellFormed(Obj(fields))
    requires forall i | 0 <= i < |fields| :: UntouchedBelow(fields[i])
    requires Valid(rules, Written, defs, d, Obj(fields), x)
    ensures Valid(rules, Written, StrictFields(defs), d, ToStrict(Obj(fields)), x) <==>
            RestTakes(rules, defs, d, fields, x)
  {
    hide Valid, EntryValid, EntryWellFormed, UntouchedBelow, Listed, ToStrict, StrictFields, SchemaMap, UntouchedMap,
      Unsupported;
    Agrees(rules, defs, d, Obj(fields), x);
    EntriesAsMembers(rules, Written, defs, d, fields, x);
    EntriesAsMembers(rules, Derived, defs, d, fields, x);
    if RestTakes(rules, defs, d, fields, x) {
      forall f | f in fields ensures EntryValid(rules, Derived, defs, d, f, Listed(Derived, fields), x) {
        var k :| 0 <= k < |fields| && fields[k] == f;
        EntryKept(rules, defs, d, fields, k, x);
      }
    }
    if Valid(rules, Derived, defs, d, Obj(fields), x) && x.Obj? {
      forall i, k | 0 <= i < |x.fields| && Unsupported(x.fields[i].key)
                    && 0 <= k < |fields| && fields[k].key == "additionalProperties"
        ensures Valid(rules, Derived, defs, d, fields[k].value, x.fields[i].value)
      {
        ListedNames(fields, x.fields[i].key);
        RestEntry(rules, Derived, defs, d, fields[k], Listed(Derived, fields), x);
        assert EntryValid(rules, Derived, defs, d, fields[k], Listed(Derived, fields), x);
      }
    }
  }

  lemma EntryKept(rules: Rules, defs: seq<Field>, d: nat, fields: seq<Field>, k: nat, x: Json)
    requires SchemaMap(defs) && UntouchedMap(defs) && WellFormed(Obj(fields)) && k < |fields|
    requires UntouchedBelow(fields[k]) && RestTakes(rules, defs, d, fields, x)
    requires EntryValid(rules, Written, defs, d, fields[k], Listed(Written, fields), x)
    ensures EntryValid(rules, Derived, defs, d, fields[k], Listed(Derived, fields), x)
  {
    hide Valid, EntryValid, EntryWellFormed, UntouchedBelow, Listed, Unsupported, Carries, SeesLess;
    var f := fields[k];
    PartsBelow(rules, defs, d, f);
    if f.key == "additionalProperties" {
      RestEntry(rules, Written, defs, d, f, Listed(Written, fields), x);
      RestEntry(rules, Derived, defs, d, f, Listed(Derived, fields), x);
      if x.Obj? {
        forall i | 0 <= i < |x.fields| && x.fields[i].key !in Listed(Derived, fields)
          ensures Valid(rules, Derived, defs, d, f.value, x.fields[i].value)
        {
          ListedNames(fields, x.fields[i].key);
          InnerCarries(rules, Written, Derived, defs, d, d, f);
        }
      }
    } else {
      OtherEntryKept(rules, defs, d, f, Listed(Written, fields), Listed(Derived, fields), x);
    }
  }

  /** Only the entry for additional properties looks at the names that are listed. */
  lemma OtherEntryKept(rules: Rules, defs: seq<Field>, d: nat, f: Field, listed: set<string>, known: set<string>,
                       x: Json)
    requires PartsCarry(rules, Written, Derived, defs, d, d, f) && SeesLess(Written, Derived, defs, f)
    requires f.key != "additionalProperties" && EntryValid(rules, Written, defs, d, f, listed, x)
    ensures EntryValid(rules, Derived, defs, d, f, known, x)
  {
    hide Valid, PartsCarry, SeesLess, BoundOk, PlainOk, Stays, Kept, Get;
    EntryCarries(rules, Written, Derived, defs, d, d, f, listed, listed, x);
  }

  /**
    What a closed schema loses: of the instances it accepts, and with property names of any kind, its
    translation accepts exactly those that use no key named after a dropped keyword.
   */
  lemma ClosedLosesExactlyDroppedNames(rules: Rules, defs: seq<Field>, fields: seq<Field>, x: Json)
    requires SchemaMap(defs) && UntouchedMap(defs) && WellFormed(Obj(fields)) && Closed(fields)
    requires forall i | 0 <= i < |fields| :: UntouchedBelow(fields[i])
    requires Means(rules, Written, defs, Obj(fields), x)
    ensures Means(rules, Written, StrictFields(defs), ToStrict(Obj(fields)), x) <==>
            (x.Obj? ==> forall i | 0 <= i < |x.fields| :: !Unsupported(x.fields[i].key))
  {
    hide Valid, WellFormed, UntouchedBelow, SchemaMap, UntouchedMap, ToStrict, StrictFields, Closed, Unsupported;
    if x.Obj? && exists i | 0 <= i < |x.fields| :: Unsupported(x.fields[i].key) {
      var i :| 0 <= i < |x.fields| && Unsupported(x.fields[i].key);
      forall d: nat ensures !Valid(rules, Written, StrictFields(defs), d, ToStrict(Obj(fields)), x) {
        ClosedRefusesDroppedNames(rules, StrictFields(defs), d, fields, x, i);
      }
    } else {
      var d: nat :| Valid(rules, Written, defs, d, Obj(fields), x);
      DroppedNamesFallToTheRest(rules, defs, d, fields, x);
    }
  }

  /** Such a loss: the closed schema of one property, named after a dropped keyword. */
  lemma PropertyNamedPatternLost(rules: Rules)
    ensures var properties_ := Field("properties", Obj([Field("pattern", Bool(true))]));
            var s := Obj([properties_, Field("additionalProperties", Bool(false))]);
            var x := Obj([Field("pattern", Null)]);
            Means(rules, Written, [], s, x) && !Means(rules, Written, [], ToStrict(s), x)
  {
    hide BoundOk, PlainOk;
    var properties_, closed := Field("properties", Obj([Field("pattern", Bool(true))])),
        Field("additionalProperties", Bool(false));
    var fields := [properties_, closed];
    var x := Obj([Field("pattern", Null)]);
    PlainKeywords(rules, properties_, x);
    PlainKeywords(rules, closed, x);
    assert properties_.value.fields[0].key == "pattern";
    assert "pattern" in Listed(Written, fields);
    assert Valid(rules, Written, [], 0, Obj(fields), x);
    assert fields[1..] == [closed];
    assert Get(fields, "additionalProperties") == Get(fields[1..], "additionalProperties") == Some(Bool(false));
    assert Closed(fields) && x.fields[0].key == "pattern";
    forall d: nat ensures !Valid(rules, Written, [], d, ToStrict(Obj(fields)), x) {
      ClosedRefusesDroppedNames(rules, [], d, fields, x, 0);
    }
  }

  lemma PlainKeywords(rules: Rules, f: Field, x: Json)
    requires f.key == "properties" || f.key == "additionalProperties"
    ensures BoundOk(rules, f.key, f.value, x) && PlainOk(rules, Written, f.key, f.value, x)
  {
  }

  // ----- nullable schemas -----

  /** A nullable enumeration without null: the source rejects null, the derived schema accepts it. */
  lemma EnumWithoutNull(rules: Rules)
    requires !rules.same(Str("a"), Null)
    ensures var s := Obj([Field("type", Arr([Str("string"), Str("null")])), Field("enum", Arr([Str("a")]))]);
            && WellFormed(s) && Untouched(s)
            && !Means(rules, Written, [], s, Null) && Means(rules, Written, [], ToStrict(s), Null)
  {
    hide ToStrict;
    var type_, enum_ := Field("type", Arr([Str("string"), Str("null")])), Field("enum", Arr([Str("a")]));
    var fields := [type_, enum_];
    EnumInFragment(type_, enum_);
    forall d: nat ensures !Valid(rules, Written, [], d, Obj(fields), Null) {
      assert !EntryValid(rules, Written, [], d, fields[1], Listed(Written, fields), Null);
    }
    NullableTranslation(rules, [], 0, fields, Null);
  }

  lemma EnumInFragment(type_: Field, enum_: Field)
    requires type_.key == "type" && enum_ == Field("enum", Arr([Str("a")]))
    ensures WellFormed(Obj([type_, enum_])) && Untouched(Obj([type_, enum_]))
  {
    assert EntryWellFormed(type_) && EntryUntouched(type_);
    assert EntryWellFormed(enum_) && EntryUntouched(enum_);
  }

  /** A nullable root with a reference: no instance but null survives its translation. */
  lemma NullableRootLosesReferences(rules: Rules, fields: seq<Field>, ref: Field, x: Json)
    requires Nullable(Get(fields, "type")) && ref in fields && ref.key == "$ref" && !x.Null?
    ensures !Accepts(rules, Written, ToStrict(Obj(fields)), x)
  {
    hide Valid, EntryValid, ToStrict;
    NullableRootLosesDefinitions(fields);
    GetUntyped(fields, "type");
    var names, rest := NonNull(Get(fields, "type").value.items), Untyped(fields);
    UntypedMembers(fields);
    forall d: nat ensures !Valid(rules, Written, [], d, ToStrict(Obj(fields)), x) {
      NullableTranslation(rules, [], d, fields, x);
      forall k | 0 <= k < |names| ensures !Valid(rules, Written, [], d, ToStrict(Branch(rest, names[k])), x) {
        ReferenceNeedsDefinitions(rules, d, rest, names[k], ref, x);
      }
    }
  }

  lemma ReferenceNeedsDefinitions(rules: Rules, d: nat, rest: seq<Field>, t: Json, ref: Field, x: Json)
    requires t.Str? && ref in rest && ref.key == "$ref" && Get(rest, "type").None?
    ensures !Valid(rules, Written, [], d, ToStrict(Branch(rest, t)), x)
  {
    hide Valid, EntryValid, StrictFields, Get, Listed;
    var b := Branch(rest, t).fields;
    GetAppend(rest, Field("type", t), "type");
    StrictFieldsMembers(b);
    var i :| 0 <= i < |rest| && rest[i] == ref;
    assert b[i] == ref && Kept(ref);
    var g := Field(ref.key, ToStrict(ref.value));
    assert g in StrictFields(b);
    PlainTranslation(b);
    EntriesAsMembers(rules, Written, [], d, StrictFields(b), x);
    ReferenceEntry(rules, Written, [], d, ToStrict(ref.value), Listed(Written, StrictFields(b)), x);
  }

  // ----- literals -----

  /** What does not depend on depth. */
  lemma MeansAlways(rules: Rules, s: Json, x: Json, ok: bool)
    requires forall d: nat :: Valid(rules, Written, [], d, s, x) == ok
    ensures Means(rules, Written, [], s, x) == ok
  {
    hide Valid;
    assert Valid(rules, Written, [], 0, s, x) == ok;
  }

  /** A constant is translated like a schema: the derived schema asks for what the translation makes of it. */
  lemma ConstantIsTranslated(rules: Rules, v: Json, x: Json)
    ensures Means(rules, Written, [], Obj([Field("const", v)]), x) <==> rules.same(v, x)
    ensures Means(rules, Written, [], ToStrict(Obj([Field("const", v)])), x) <==> rules.same(ToStrict(v), x)
  {
    hide Valid, EntryValid, ToStrict, Means;
    var f, g := Field("const", v), Field("const", ToStrict(v));
    ConstantSchema(v);
    forall d: nat
      ensures Valid(rules, Written, [], d, Obj([f]), x) == rules.same(v, x)
      ensures Valid(rules, Written, [], d, Obj([g]), x) == rules.same(ToStrict(v), x)
    {
      SingleEntry(rules, Written, [], d, f, x);
      SingleEntry(rules, Written, [], d, g, x);
      ConstantEntry(rules, d, v, Listed(Written, [f]), x);
      ConstantEntry(rules, d, ToStrict(v), Listed(Written, [g]), x);
    }
    MeansAlways(rules, Obj([f]), x, rules.same(v, x));
    MeansAlways(rules, Obj([g]), x, rules.same(ToStrict(v), x));
  }

  lemma ConstantSchema(v: Json)
    ensures ToStrict(Obj([Field("const", v)])) == Obj([Field("const", ToStrict(v))])
  {
    var f, g := Field("const", v), Field("const", ToStrict(v));
    assert [f][1..] == [];
    assert Get([f], "type") == Get([f][1..], "type") == None;
    PlainTranslation([f]);
    assert StrictFields([f]) == [g] + StrictFields([f][1..]) == [g];
  }

  lemma ConstantEntry(rules: Rules, d: nat, v: Json, listed: set<string>, x: Json)
    ensures EntryValid(rules, Written, [], d, Field("const", v), listed, x) == rules.same(v, x)
  {
  }

  /** A constant that holds a dropped keyword is no longer accepted as itself. */
  lemma ConstantWithPatternLost(rules: Rules)
    requires forall a, b :: rules.same(a, b) <==> a == b
    ensures var v := Obj([Field("pattern", Str("x"))]);
            && Means(rules, Written, [], Obj([Field("const", v)]), v)
            && !Means(rules, Written, [], ToStrict(Obj([Field("const", v)])), v)
  {
    hide Means;
    var v := Obj([Field("pattern", Str("x"))]);
    assert v.fields[1..] == [];
    assert ToStrict(v) == Obj([]);
    ConstantIsTranslated(rules, v, v);
  }
}
