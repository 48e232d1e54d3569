/** What the checker reports and what the translation leaves, place by place. */
module SchemaPlaces {
  import opened StrictSchema
  import opened Text
  import opened Wrappers

  // ----- places -----

  /** One step into a value: an item of an array or an entry of an object. */
  datatype Step = Item(i: nat) | Entry(i: nat)

  type Route = seq<Step>

  /** Entries whose values are literals, not schemas. */
  predicate Literal(key: string) {
    key in {"type", "required", "enum"}
  }

  predicate Steps(v: Json, s: Step) {
    match s
    case Item(i) => v.Arr? && i < |v.items|
    case Entry(i) => v.Obj? && i < |v.fields| && !Literal(v.fields[i].key)
  }

  function Inside(v: Json, s: Step): Json
    requires Steps(v, s)
  {
    match s
    case Item(i) => v.items[i]
    case Entry(i) => v.fields[i].value
  }

  function PathOf(v: Json, s: Step, path: string): string
    requires Steps(v, s)
  {
    match s
    case Item(i) => path + "[" + Digits(i) + "]"
    case Entry(i) => path + "." + v.fields[i].key
  }

  /** The place and its path at the end of a route that passes through no literal. */
  function Reach(v: Json, path: string, route: Route): Option<(Json, string)>
    decreases route
  {
    if route == [] then Some((v, path))
    else if Steps(v, route[0]) then Reach(Inside(v, route[0]), PathOf(v, route[0], path), route[1..])
    else None
  }

  // ----- what is wrong with a place -----

  /** The value under a key: that of its first entry. */
  ghost predicate Under(fields: seq<Field>, key: string, value: Json) {
    exists i | 0 <= i < |fields| ::
      fields[i] == Field(key, value) && forall j | 0 <= j < i :: fields[j].key != key
  }

  lemma {:induction false} GetMeaning(fields: seq<Field>, key: string, value: Json)
    ensures Get(fields, key) == Some(value) <==> Under(fields, key, value)
  {
    if fields != [] {
      var rest := fields[1..];
      GetMeaning(rest, key, value);
      if Under(fields, key, value) && fields[0].key != key {
        var i :| 0 <= i < |fields| && fields[i] == Field(key, value) && forall j | 0 <= j < i :: fields[j].key != key;
        assert rest[i - 1] == fields[i];
        assert forall j | 0 <= j < i - 1 :: rest[j] == fields[j + 1];
      }
      if Under(rest, key, value) && fields[0].key != key {
        var i :| 0 <= i < |rest| && rest[i] == Field(key, value) && forall j | 0 <= j < i :: rest[j].key != key;
        assert fields[i + 1] == rest[i];
        assert forall j | 0 < j < i + 1 :: fields[j] == rest[j - 1];
      }
      if fields[0] == Field(key, value) {
        assert Under(fields, key, value);
      }
    }
  }

  ghost predicate Present(fields: seq<Field>, key: string) {
    exists i | 0 <= i < |fields| :: fields[i].key == key
  }

  /** A bound the dialect does not know, a minimum above one, a type array, an object left open. */
  ghost predicate Offends(v: Json, mark: string) {
    v.Obj? &&
    if mark in {"maxItems", "maxLength", "minLength", "pattern"} then Present(v.fields, mark)
    else if mark == "minItems" then exists n :: n > 1.0 && Under(v.fields, "minItems", Num(n))
    else if mark == "type[]" then exists types :: Under(v.fields, "type", Arr(types))
    else
      mark == "additionalProperties"
      && Under(v.fields, "type", Str("object")) && !Under(v.fields, "additionalProperties", Bool(false))
  }

  /** A place is reached by the route, and the mark is on it. */
  ghost predicate Faulty(v: Json, path: string, route: Route, mark: string) {
    Reach(v, path, route).Some? && Offends(Reach(v, path, route).value.0, mark)
  }

  ghost predicate Marks(v: Json, path: string, route: Route, mark: string, x: string) {
    var place := Reach(v, path, route);
    place.Some? && Offends(place.value.0, mark) && x == place.value.1 + "." + mark
  }

  /** `x` is the path of something wrong at a place of the value. */
  ghost predicate Offending(v: Json, path: string, x: string) {
    exists route, mark :: Marks(v, path, route, mark, x)
  }

  // ----- what the checker reports -----

  lemma KeywordStep(fields: seq<Field>, path: string, n: nat, x: string)
    requires 0 < n <= |UNSUPPORTED|
    ensures x in KeywordViolations(fields, path, n) <==>
            x in KeywordViolations(fields, path, n - 1)
            || (Present(fields, UNSUPPORTED[n - 1]) && x == path + "." + UNSUPPORTED[n - 1])
  {
    assert Has(fields, UNSUPPORTED[n - 1]) <==> Present(fields, UNSUPPORTED[n - 1]);
  }

  lemma KeywordsListed(fields: seq<Field>, path: string, x: string)
    ensures x in KeywordViolations(fields, path, |UNSUPPORTED|) <==>
            exists mark | mark in {"maxItems", "maxLength", "minLength", "pattern"} ::
              Present(fields, mark) && x == path + "." + mark
  {
    hide Present;
    assert UNSUPPORTED == ["maxItems", "maxLength", "minLength", "pattern"];
    KeywordStep(fields, path, 1, x);
    KeywordStep(fields, path, 2, x);
    KeywordStep(fields, path, 3, x);
    KeywordStep(fields, path, 4, x);
    assert KeywordViolations(fields, path, 0) == [];
  }

  /** What is wrong with an object itself is listed, each under its own mark. */
  lemma OwnListed(fields: seq<Field>, path: string, x: string)
    ensures x in OwnViolations(fields, path) <==>
            exists mark :: Offends(Obj(fields), mark) && x == path + "." + mark
  {
    hide KeywordViolations, Under, Get;
    KeywordsListed(fields, path, x);
    LargeListed(fields);
    ArrayListed(fields);
    GetMeaning(fields, "type", Str("object"));
    GetMeaning(fields, "additionalProperties", Bool(false));
    var own := OwnViolations(fields, path);
    assert x in own <==>
           x in KeywordViolations(fields, path, |UNSUPPORTED|)
           || (LargeMinimum(fields) && x == path + ".minItems")
           || (TypeArray(fields) && x == path + ".type[]")
           || (OpenObject(fields) && x == path + ".additionalProperties");
    assert path + ".minItems" == path + "." + "minItems";
    assert path + ".type[]" == path + "." + "type[]";
    assert path + ".additionalProperties" == path + "." + "additionalProperties";
    if LargeMinimum(fields) && x == path + ".minItems" {
      assert Offends(Obj(fields), "minItems");
    }
    if TypeArray(fields) && x == path + ".type[]" {
      assert Offends(Obj(fields), "type[]");
    }
    if OpenObject(fields) && x == path + ".additionalProperties" {
      assert Offends(Obj(fields), "additionalProperties");
    }
    forall mark | mark in {"maxItems", "maxLength", "minLength", "pattern"} && Present(fields, mark)
      ensures Offends(Obj(fields), mark)
    {
    }
  }

  lemma LargeListed(fields: seq<Field>)
    ensures LargeMinimum(fields) <==> exists n :: n > 1.0 && Under(fields, "minItems", Num(n))
  {
    hide Under, Get;
    forall n ensures Get(fields, "minItems") == Some(Num(n)) <==> Under(fields, "minItems", Num(n)) {
      GetMeaning(fields, "minItems", Num(n));
    }
    if LargeMinimum(fields) {
      var n := Get(fields, "minItems").value.n;
      assert Get(fields, "minItems") == Some(Num(n));
    }
  }

  lemma ArrayListed(fields: seq<Field>)
    ensures TypeArray(fields) <==> exists types :: Under(fields, "type", Arr(types))
  {
    hide Under, Get;
    forall types ensures Get(fields, "type") == Some(Arr(types)) <==> Under(fields, "type", Arr(types)) {
      GetMeaning(fields, "type", Arr(types));
    }
    if TypeArray(fields) {
      var types := Get(fields, "type").value.items;
      assert Get(fields, "type") == Some(Arr(types));
    }
  }

  /** A place is the value itself or a place inside one of its parts. */
  lemma OffendingSplits(v: Json, path: string, x: string)
    ensures Offending(v, path, x) <==>
            || (exists mark :: Offends(v, mark) && x == path + "." + mark)
            || (exists s :: Steps(v, s) && Offending(Inside(v, s), PathOf(v, s, path), x))
  {
    hide Offends;
    if Offending(v, path, x) {
      var route, mark :| Marks(v, path, route, mark, x);
      if route == [] {
        assert Offends(v, mark) && x == path + "." + mark;
      } else {
        assert Marks(Inside(v, route[0]), PathOf(v, route[0], path), route[1..], mark, x);
      }
    }
    if mark :| Offends(v, mark) && x == path + "." + mark {
      assert Marks(v, path, [], mark, x);
    }
    if s :| Steps(v, s) && Offending(Inside(v, s), PathOf(v, s, path), x) {
      var route, mark :| Marks(Inside(v, s), PathOf(v, s, path), route, mark, x);
      assert ([s] + route)[1..] == route;
      assert Marks(v, path, [s] + route, mark, x);
    }
  }

  /** The checker lists exactly the paths of what is wrong, at every place it can reach. */
  lemma {:induction false} ExactlyTheOffending(v: Json, path: string, x: string)
    ensures x in Violations(v, path) <==> Offending(v, path, x)
    decreases v, 1, 0
  {
    hide Offending, OwnViolations, Offends;
    OffendingSplits(v, path, x);
    match v {
      case Arr(items) =>
        ItemsOffending(v, path, |items|, x);
        NothingOwn(v);
        forall s | Steps(v, s) ensures s.Item? {
        }
        forall i | 0 <= i < |items|
          ensures Steps(v, Item(i)) && Inside(v, Item(i)) == items[i]
                  && PathOf(v, Item(i), path) == path + "[" + Digits(i) + "]"
        {
        }
      case Obj(fields) =>
        OwnListed(fields, path, x);
        FieldsOffending(v, path, |fields|, x);
        forall i | 0 <= i < |fields| && !Literal(fields[i].key)
          ensures Steps(v, Entry(i)) && Inside(v, Entry(i)) == fields[i].value
                  && PathOf(v, Entry(i), path) == path + "." + fields[i].key
        {
        }
      case _ =>
        NothingOwn(v);
    }
  }

  lemma NothingOwn(v: Json)
    requires !v.Obj?
    ensures forall mark :: !Offends(v, mark)
  {
  }

  lemma {:induction false} ItemsOffending(v: Json, path: string, n: nat, x: string)
    requires v.Arr? && n <= |v.items|
    ensures x in ItemViolations(v, path, n) <==>
            exists i | 0 <= i < n :: Offending(v.items[i], path + "[" + Digits(i) + "]", x)
    decreases v, 0, n
  {
    hide Offending, Digits, Violations;
    if n > 0 {
      ItemsOffending(v, path, n - 1, x);
      ExactlyTheOffending(v.items[n - 1], path + "[" + Digits(n - 1) + "]", x);
    }
  }

  lemma {:induction false} FieldsOffending(v: Json, path: string, n: nat, x: string)
    requires v.Obj? && n <= |v.fields|
    ensures x in FieldViolations(v, path, n) <==>
            exists i | 0 <= i < n && !Literal(v.fields[i].key) ::
              Offending(v.fields[i].value, path + "." + v.fields[i].key, x)
    decreases v, 0, n
  {
    hide Offending, Violations;
    if n > 0 {
      FieldsOffending(v, path, n - 1, x);
      ExactlyTheOffending(v.fields[n - 1].value, path + "." + v.fields[n - 1].key, x);
    }
  }

  /** It reports nothing exactly when there is nothing wrong at any place. */
  lemma NothingWrong(v: Json, path: string)
    ensures Violations(v, path) == [] <==> forall route, mark :: !Faulty(v, path, route, mark)
  {
    hide Offends, Violations;
    if Violations(v, path) != [] {
      var x := Violations(v, path)[0];
      ExactlyTheOffending(v, path, x);
      var route, mark :| Marks(v, path, route, mark, x);
      assert Faulty(v, path, route, mark);
    } else {
      forall route, mark ensures !Faulty(v, path, route, mark) {
        if Faulty(v, path, route, mark) {
          var x := Reach(v, path, route).value.1 + "." + mark;
          assert Marks(v, path, route, mark, x);
          ExactlyTheOffending(v, path, x);
          assert false;
        }
      }
    }
  }

  // ----- the translation, entry by entry -----

  /** An entry that states a bound of the wider dialect. */
  predicate Bound(f: Field) {
    || f.key in {"maxItems", "maxLength", "minLength", "pattern"}
    || (f.key == "minItems" && f.value.Num? && f.value.n > 1.0)
  }

  /** Places below `n`, from first to last. */
  predicate Ascends(at: seq<nat>, n: nat) {
    && (forall k | 0 <= k < |at| :: at[k] < n)
    && forall j, k | 0 <= j < k < |at| :: at[j] < at[k]
  }

  lemma {:induction false} StrictAppend(fields: seq<Field>, last: Field)
    ensures StrictFields(fields + [last]) ==
            StrictFields(fields) + if Bound(last) then [] else [Field(last.key, ToStrict(last.value))]
  {
    hide ToStrict;
    if fields == [] {
      assert (fields + [last])[1..] == [];
    } else {
      assert (fields + [last])[1..] == fields[1..] + [last];
      StrictAppend(fields[1..], last);
    }
  }

  /** The entries that state no bound are kept, in their order, and no others. */
  lemma {:induction false} KeptInOrder(fields: seq<Field>) returns (at: seq<nat>)
    ensures Ascends(at, |fields|) && forall i | 0 <= i < |fields| :: i in at <==> !Bound(fields[i])
    ensures |StrictFields(fields)| == |at|
    ensures forall k | 0 <= k < |at| ::
              StrictFields(fields)[k] == Field(fields[at[k]].key, ToStrict(fields[at[k]].value))
  {
    hide ToStrict, StrictFields, Bound;
    at := [];
    if fields == [] {
      NothingKept();
    } else {
      var prefix, last := fields[..|fields| - 1], fields[|fields| - 1];
      assert fields == prefix + [last];
      StrictAppend(prefix, last);
      at := KeptInOrder(prefix);
      at := at + if Bound(last) then [] else [|prefix|];
    }
  }

  lemma NothingKept()
    ensures StrictFields([]) == []
  {
  }

  /** An object without a nullable type array keeps its keys, all but the bounds; their values are translated. */
  lemma ObjectTranslated(fields: seq<Field>, out: seq<Field>) returns (at: seq<nat>)
    requires forall types: seq<Json> | Under(fields, "type", Arr(types)) ::
               (exists i | 0 <= i < |types| :: !types[i].Str?) || Str("null") !in types
    ensures Ascends(at, |fields|) && forall i | 0 <= i < |fields| :: i in at <==> !Bound(fields[i])
    ensures ToStrict(Obj(fields)) == Obj(out) <==>
            |out| == |at| && forall k | 0 <= k < |at| ::
              out[k] == Field(fields[at[k]].key, ToStrict(fields[at[k]].value))
  {
    hide Under, Get;
    TypesUnder(fields);
    at := KeptInOrder(fields);
    assert !Nullable(Get(fields, "type"));
    NotNullable(fields);
    if |out| == |at| && forall k | 0 <= k < |at| :: out[k] == Field(fields[at[k]].key, ToStrict(fields[at[k]].value)) {
      assert out == StrictFields(fields);
    }
  }

  lemma NotNullable(fields: seq<Field>)
    requires !Nullable(Get(fields, "type"))
    ensures ToStrict(Obj(fields)) == Obj(StrictFields(fields))
  {
  }

  lemma {:induction false} UntypedAppend(fields: seq<Field>, last: Field)
    ensures Untyped(fields + [last]) == Untyped(fields) + if last.key == "type" then [] else [last]
  {
    if fields == [] {
      assert (fields + [last])[1..] == [];
    } else {
      assert (fields + [last])[1..] == fields[1..] + [last];
      UntypedAppend(fields[1..], last);
    }
  }

  lemma {:induction false} UntypedInOrder(fields: seq<Field>) returns (at: seq<nat>)
    ensures Ascends(at, |fields|) && forall i | 0 <= i < |fields| :: i in at <==> fields[i].key != "type"
    ensures |Untyped(fields)| == |at| && forall k | 0 <= k < |at| :: Untyped(fields)[k] == fields[at[k]]
  {
    at := [];
    if fields != [] {
      var prefix, last := fields[..|fields| - 1], fields[|fields| - 1];
      assert fields == prefix + [last];
      UntypedAppend(prefix, last);
      at := UntypedInOrder(prefix);
      at := at + if last.key == "type" then [] else [|prefix|];
    }
  }

  lemma {:induction false} NonNullAppend(types: seq<Json>, last: Json)
    ensures NonNull(types + [last]) == NonNull(types) + if last == Str("null") then [] else [last]
  {
    if types == [] {
      assert (types + [last])[1..] == [];
    } else {
      assert (types + [last])[1..] == types[1..] + [last];
      NonNullAppend(types[1..], last);
    }
  }

  lemma {:induction false} NonNullInOrder(types: seq<Json>) returns (at: seq<nat>)
    ensures Ascends(at, |types|) && forall i | 0 <= i < |types| :: i in at <==> types[i] != Str("null")
    ensures |NonNull(types)| == |at| && forall k | 0 <= k < |at| :: NonNull(types)[k] == types[at[k]]
  {
    at := [];
    if types != [] {
      var prefix, last := types[..|types| - 1], types[|types| - 1];
      assert types == prefix + [last];
      NonNullAppend(prefix, last);
      at := NonNullInOrder(prefix);
      at := at + if last == Str("null") then [] else [|prefix|];
    }
  }

  lemma {:induction false} BranchAt(rest: seq<Field>, names: seq<Json>, k: nat)
    requires forall i | 0 <= i < |names| :: names[i].Str?
    requires k < |names|
    ensures Branches(rest, names)[k] == ToStrict(Obj(rest + [Field("type", names[k])]))
  {
    hide ToStrict;
    if k > 0 {
      BranchAt(rest, names[1..], k - 1);
    }
  }

  lemma ChoicesAre(rest: seq<Field>, names: seq<Json>, choices: seq<Json>)
    requires forall i | 0 <= i < |names| :: names[i].Str?
    ensures choices == Branches(rest, names) + [NULL_SCHEMA] <==>
              && |choices| == |names| + 1 && choices[|names|] == Obj([Field("type", Str("null"))])
              && forall k | 0 <= k < |names| :: choices[k] == ToStrict(Obj(rest + [Field("type", names[k])]))
  {
    hide ToStrict, Branches;
    var all := Branches(rest, names) + [NULL_SCHEMA];
    forall k | 0 <= k < |names| ensures all[k] == ToStrict(Obj(rest + [Field("type", names[k])])) {
      BranchAt(rest, names, k);
    }
  }

  lemma IsChoice(fields: seq<Field>)
    requires Nullable(Get(fields, "type"))
    ensures var names := NonNull(Get(fields, "type").value.items);
            && (forall i | 0 <= i < |names| :: names[i].Str?)
            && ToStrict(Obj(fields)) ==
               Obj([Field("anyOf", Arr(Branches(Untyped(fields), names) + [NULL_SCHEMA]))])
  {
  }

  /** A nullable schema becomes a choice: for each other type, in order, the translation of the schema with just
      that type behind its other entries, and last the schema of null. */
  lemma NullableTranslated(fields: seq<Field>, types: seq<Json>, choices: seq<Json>)
    returns (rest: seq<Field>, kept: seq<nat>, names: seq<Json>, at: seq<nat>)
    requires Under(fields, "type", Arr(types))
    requires (forall i | 0 <= i < |types| :: types[i].Str?) && Str("null") in types
    ensures Ascends(kept, |fields|) && forall i | 0 <= i < |fields| :: i in kept <==> fields[i].key != "type"
    ensures |rest| == |kept| && forall k | 0 <= k < |rest| :: rest[k] == fields[kept[k]]
    ensures Ascends(at, |types|) && forall i | 0 <= i < |types| :: i in at <==> types[i] != Str("null")
    ensures |names| == |at| && forall k | 0 <= k < |names| :: names[k] == types[at[k]]
    ensures ToStrict(Obj(fields)) == Obj([Field("anyOf", Arr(choices))]) <==>
              && |choices| == |names| + 1 && choices[|names|] == Obj([Field("type", Str("null"))])
              && forall k | 0 <= k < |names| :: choices[k] == ToStrict(Obj(rest + [Field("type", names[k])]))
  {
    hide Under, Get, ToStrict, Branches, Untyped, NonNull;
    GetMeaning(fields, "type", Arr(types));
    rest := Untyped(fields);
    kept := UntypedInOrder(fields);
    names := NonNull(types);
    at := NonNullInOrder(types);
    IsChoice(fields);
    ChoicesAre(rest, names, choices);
  }

  /** Arrays are translated item by item, and what is neither array nor object stays as it is. */
  lemma {:induction false} ItemsTranslated(v: Json)
    ensures v.Arr? ==>
              var t := ToStrict(v);
              && t.Arr? && |t.items| == |v.items|
              && forall i | 0 <= i < |v.items| :: t.items[i] == ToStrict(v.items[i])
    ensures !v.Arr? && !v.Obj? ==> ToStrict(v) == v
  {
    if v.Arr? {
      EachItem(v.items);
    }
  }

  lemma {:induction false} EachItem(items: seq<Json>)
    ensures forall i | 0 <= i < |items| :: StrictItems(items)[i] == ToStrict(items[i])
  {
    hide ToStrict;
    if items != [] {
      EachItem(items[1..]);
      assert forall i | 0 < i < |items| :: items[i] == items[1..][i - 1];
    }
  }

  // ----- which sources the checker passes once translated -----

  /** A type array of nothing but "null", whose schema the translation replaces outright. */
  ghost predicate OnlyNull(v: Json) {
    v.Obj? && exists types :: types != [] && Under(v.fields, "type", Arr(types))
                              && forall i | 0 <= i < |types| :: types[i] == Str("null")
  }

  /** The steps into parts of a source that are there in its translation. */
  ghost predicate Survives(v: Json, s: Step) {
    Steps(v, s) && (s.Entry? ==> !Bound(v.fields[s.i]) && !OnlyNull(v))
  }

  ghost function Follow(v: Json, route: Route): Option<Json>
    decreases route
  {
    if route == [] then Some(v)
    else if Survives(v, route[0]) then Follow(Inside(v, route[0]), route[1..])
    else None
  }

  ghost predicate Shut(v: Json)
    requires v.Obj?
  {
    Under(v.fields, "additionalProperties", Bool(false))
  }

  /** A type array is of names and has "null" among them, and a schema that allows objects is closed. */
  ghost predicate Fits(v: Json) {
    v.Obj? ==>
      && (forall types: seq<Json> | Under(v.fields, "type", Arr(types)) ::
            && (forall i | 0 <= i < |types| :: types[i].Str?)
            && Str("null") in types
            && (Str("object") in types ==> Shut(v)))
      && (Under(v.fields, "type", Str("object")) ==> Shut(v))
  }

  ghost predicate FitsThroughout(v: Json) {
    forall route | Follow(v, route).Some? :: Fits(Follow(v, route).value)
  }

  lemma FitsSplits(v: Json)
    ensures FitsThroughout(v) <==> Fits(v) && forall s | Survives(v, s) :: FitsThroughout(Inside(v, s))
  {
    hide Fits, OnlyNull, Bound;
    if FitsThroughout(v) {
      assert Follow(v, []) == Some(v);
      forall s, route | Survives(v, s) && Follow(Inside(v, s), route).Some?
        ensures Fits(Follow(Inside(v, s), route).value)
      {
        assert ([s] + route)[1..] == route;
        assert Follow(v, [s] + route) == Follow(Inside(v, s), route);
      }
    }
    if Fits(v) && forall s | Survives(v, s) :: FitsThroughout(Inside(v, s)) {
      forall route | Follow(v, route).Some? ensures Fits(Follow(v, route).value) {
        if route != [] {
          assert FitsThroughout(Inside(v, route[0]));
        }
      }
    }
  }

  lemma TypesUnder(fields: seq<Field>)
    ensures forall types :: Under(fields, "type", Arr(types)) <==> Get(fields, "type") == Some(Arr(types))
    ensures Under(fields, "type", Str("object")) <==> Get(fields, "type") == Some(Str("object"))
    ensures Under(fields, "additionalProperties", Bool(false)) <==> Closed(fields)
  {
    hide Under, Get;
    forall types ensures Under(fields, "type", Arr(types)) <==> Get(fields, "type") == Some(Arr(types)) {
      GetMeaning(fields, "type", Arr(types));
    }
    GetMeaning(fields, "type", Str("object"));
    GetMeaning(fields, "additionalProperties", Bool(false));
  }

  lemma OwnFits(fields: seq<Field>)
    ensures Fits(Obj(fields)) <==>
              var t := Get(fields, "type");
              if Nullable(t) then Str("object") in t.value.items ==> Closed(fields)
              else !TypeArray(fields) && (t == Some(Str("object")) ==> Closed(fields))
  {
    hide Under, Get;
    TypesUnder(fields);
    if TypeArray(fields) {
      assert Get(fields, "type") == Some(Arr(Get(fields, "type").value.items));
    }
  }

  lemma {:induction false} NothingButNull(types: seq<Json>)
    requires forall i | 0 <= i < |types| :: types[i] == Str("null")
    ensures NonNull(types) == []
  {
    if types != [] {
      NothingButNull(types[1..]);
    }
  }

  lemma OnlyNullMeaning(fields: seq<Field>)
    ensures OnlyNull(Obj(fields)) <==>
              Nullable(Get(fields, "type")) && NonNull(Get(fields, "type").value.items) == []
  {
    hide Under, Get;
    TypesUnder(fields);
    var t := Get(fields, "type");
    if t.Some? && t.value.Arr? {
      var types := t.value.items;
      NonNullMembers(types);
      assert t == Some(Arr(types));
      if forall i | 0 <= i < |types| :: types[i] == Str("null") {
        NothingButNull(types);
        assert types != [] ==> types[0] in types;
      }
      if NonNull(types) == [] {
        forall i | 0 <= i < |types| ensures types[i] == Str("null") {
          assert types[i] in types;
        }
      }
    }
  }

  lemma BoundMeaning(f: Field)
    ensures Bound(f) <==> !Kept(f)
  {
  }

  /** The condition of the translation theorem, at every place that survives. */
  lemma {:induction false} ConformsMeaning(v: Json)
    ensures Conforms(v) <==> FitsThroughout(v)
    decreases v
  {
    hide FitsThroughout, Fits, OnlyNull, Kept, Bound;
    FitsSplits(v);
    match v {
      case Arr(items) =>
        assert Fits(v) by { NoObjectFits(v); }
        forall i | 0 <= i < |items|
          ensures Survives(v, Item(i)) && Inside(v, Item(i)) == items[i]
          ensures Conforms(items[i]) <==> FitsThroughout(items[i])
        {
          ConformsMeaning(items[i]);
        }
        assert forall s | Survives(v, s) :: s.Item? && s.i < |items|;
      case Obj(fields) =>
        OwnFits(fields);
        OnlyNullMeaning(fields);
        forall i | 0 <= i < |fields|
          ensures Conforms(fields[i].value) <==> FitsThroughout(fields[i].value)
          ensures Survives(v, Entry(i)) <==> Kept(fields[i]) && !Skipped(fields[i].key) && !OnlyNull(v)
          ensures Steps(v, Entry(i)) ==> Inside(v, Entry(i)) == fields[i].value
        {
          BoundMeaning(fields[i]);
          ConformsMeaning(fields[i].value);
        }
        assert forall s | Survives(v, s) :: s.Entry? && s.i < |fields|;
      case _ =>
        NoObjectFits(v);
    }
  }

  lemma NoObjectFits(v: Json)
    requires !v.Obj?
    ensures Fits(v)
  {
  }

  /**
    The translation of a schema has nothing wrong at any place exactly when, at every place of the source
    that survives, type arrays admit null and schemas that allow objects are closed.
   */
  lemma TranslationHasNothingWrong(v: Json, path: string)
    ensures (forall route, mark :: !Faulty(ToStrict(v), path, route, mark)) <==> FitsThroughout(v)
  {
    hide Faulty, FitsThroughout, ToStrict, Conforms, Violations;
    NothingWrong(ToStrict(v), path);
    TranslationPassesChecker(v, path);
    ConformsMeaning(v);
  }
}
