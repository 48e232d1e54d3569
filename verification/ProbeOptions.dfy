/** The release probe's command line: a parser, and the renderings it accepts. */
module ProbeOptions {
  import opened Wrappers

  type Options = map<string, string>

  const HELP := "--help"

  predicate Dashed(s: string) {
    |s| >= 2 && s[0] == '-' && s[1] == '-'
  }

  /** Where the first `=` stands. */
  function Separator(s: string): (at: Option<nat>)
    ensures at.Some? ==> at.value < |s| && s[at.value] == '=' && '=' !in s[..at.value]
    ensures at.None? ==> '=' !in s
  {
    if s == "" then None
    else if s[0] == '=' then Some(0)
    else
      match Separator(s[1..])
      case None => None
      case Some(n) =>
        assert s[..n + 1] == [s[0]] + s[1..][..n];
        Some(n + 1)
  }

  function NameOf(argument: string): string {
    match Separator(argument)
    case None => argument
    case Some(n) => argument[..n]
  }

  /** The value of an option: behind its `=`, or else the next argument. */
  function ValueOf(args: seq<string>): Option<string>
    requires args != []
  {
    match Separator(args[0])
    case Some(n) => Some(args[0][n + 1..])
    case None => if |args| > 1 then Some(args[1]) else None
  }

  predicate UsableValue(v: Option<string>) {
    v.Some? && v.value != "" && !Dashed(v.value)
  }

  /** How many arguments an option takes. */
  function Width(args: seq<string>): nat
    requires args != []
  {
    if Separator(args[0]).None? then 2 else 1
  }

  /** The rest of an argument list, onto the options found so far. */
  function ParseRest(allowed: set<string>, args: seq<string>, options: Options): Result<Options>
    decreases |args|
  {
    if args == [] then Ok(options)
    else if args[0] == HELP then
      if HELP in options then Err("duplicate_option") else ParseRest(allowed, args[1..], options[HELP := "true"])
    else if !Dashed(args[0]) then Err("unexpected_argument")
    else if NameOf(args[0]) !in allowed then Err("unknown_option")
    else if NameOf(args[0]) in options then Err("duplicate_option")
    else if !UsableValue(ValueOf(args)) then Err("invalid_option_value")
    else ParseRest(allowed, args[Width(args)..], options[NameOf(args[0]) := ValueOf(args).value])
  }

  function WithoutLead(args: seq<string>): seq<string> {
    if args != [] && args[0] == "--" then args[1..] else args
  }

  function Parse(allowed: set<string>, args: seq<string>): Result<Options> {
    ParseRest(allowed, WithoutLead(args), map[])
  }

  lemma HelpAtHead(allowed: set<string>, args: seq<string>, options: Options)
    requires args != [] && args[0] == HELP
    ensures ParseRest(allowed, args, options) ==
              if HELP in options then Err("duplicate_option")
              else ParseRest(allowed, args[1..], options[HELP := "true"])
  {
  }

  /** The parser's verdict on an option in front, check by check. */
  lemma OptionAtHead(allowed: set<string>, args: seq<string>, options: Options)
    requires args != [] && args[0] != HELP
    ensures !Dashed(args[0]) ==> ParseRest(allowed, args, options) == Err("unexpected_argument")
    ensures Dashed(args[0]) && NameOf(args[0]) !in allowed ==>
        ParseRest(allowed, args, options) == Err("unknown_option")
    ensures Dashed(args[0]) && NameOf(args[0]) in allowed && NameOf(args[0]) in options ==>
              ParseRest(allowed, args, options) == Err("duplicate_option")
    ensures Dashed(args[0]) && NameOf(args[0]) in allowed && NameOf(args[0]) !in options ==>
              ParseRest(allowed, args, options) ==
                if !UsableValue(ValueOf(args)) then Err("invalid_option_value")
                else ParseRest(allowed, args[Width(args)..], options[NameOf(args[0]) := ValueOf(args).value])
  {
    hide Dashed, Separator;
  }

  lemma NothingLeft(allowed: set<string>, options: Options)
    ensures ParseRest(allowed, [], options) == Ok(options)
  {
  }

  method ParseOptions(allowed: set<string>, arguments: seq<string>) returns (r: Result<Options>)
    ensures r == Parse(allowed, arguments)
  {
    hide Separator, Dashed, ParseRest;
    var options: Options := map[];
    var index := 0;
    while index < |arguments|
      invariant 0 <= index <= |arguments|
      invariant index == 0 ==> options == map[]
      invariant Parse(allowed, arguments) ==
                  ParseRest(allowed, if index == 0 then WithoutLead(arguments) else arguments[index..], options)
    {
      var argument := arguments[index];
      if argument == "--" && index == 0 {
        index := index + 1;
        continue;
      }
      assert arguments[index..][0] == argument;
      assert arguments[index..][1..] == arguments[index + 1..];
      if argument == HELP {
        HelpAtHead(allowed, arguments[index..], options);
        if HELP in options {
          return Err("duplicate_option");
        }
        options := options[HELP := "true"];
        index := index + 1;
        continue;
      }
      OptionAtHead(allowed, arguments[index..], options);
      if !Dashed(argument) {
        return Err("unexpected_argument");
      }
      var separator := Separator(argument);
      var name := if separator.None? then argument else argument[..separator.value];
      if name !in allowed {
        return Err("unknown_option");
      }
      if name in options {
        return Err("duplicate_option");
      }
      var value :=
        if separator.Some? then Some(argument[separator.value + 1..])
        else if index + 1 < |arguments| then Some(arguments[index + 1])
        else None;
      if value.None? || value.value == "" || Dashed(value.value) {
        return Err("invalid_option_value");
      }
      assert value == ValueOf(arguments[index..]);
      assert arguments[index..][Width(arguments[index..])..] == arguments[index + Width(arguments[index..])..];
      if separator.None? {
        index := index + 1;
      }
      options := options[name := value.value];
      index := index + 1;
    }
    assert arguments[index..] == [];
    assert index == 0 ==> WithoutLead(arguments) == [];
    NothingLeft(allowed, options);
    r := Ok(options);
  }

  // ----- renderings -----

  /** One option as it may be written. */
  datatype Item = Inline(name: string, value: string) | Spaced(name: string, value: string) | Help

  function ItemName(i: Item): string {
    if i.Help? then HELP else i.name
  }

  function ItemValue(i: Item): string {
    if i.Help? then "true" else i.value
  }

  function RenderItem(i: Item): seq<string> {
    match i
    case Inline(name, value) => [name + "=" + value]
    case Spaced(name, value) => [name, value]
    case Help => [HELP]
  }

  function Render(items: seq<Item>): seq<string> {
    if items == [] then [] else RenderItem(items[0]) + Render(items[1..])
  }

  predicate Writable(allowed: set<string>, i: Item) {
    i.Help? || (i.name in allowed && i.value != "" && !("--" <= i.value))
  }

  /** Allowed names are dashed, hold no `=`, and are neither the lead nor the help option. */
  predicate PlainNames(allowed: set<string>) {
    forall n | n in allowed :: "--" <= n && '=' !in n && n != "--help" && n != "--"
  }

  /** The items write down an option map, each name once. */
  predicate Lists(allowed: set<string>, items: seq<Item>, options: Options) {
    && (forall i | 0 <= i < |items| ::
          && Writable(allowed, items[i])
          && ItemName(items[i]) in options && options[ItemName(items[i])] == ItemValue(items[i]))
    && (forall i, j | 0 <= i < j < |items| :: ItemName(items[i]) != ItemName(items[j]))
    && (forall n | n in options :: exists i | 0 <= i < |items| :: ItemName(items[i]) == n)
  }

  /** `Lists` item by item: the items write down what `options` adds to `before`. */
  predicate Extends(allowed: set<string>, items: seq<Item>, before: Options, options: Options) {
    if items == [] then options == before
    else
      && Writable(allowed, items[0])
      && ItemName(items[0]) !in before
      && Extends(allowed, items[1..], before[ItemName(items[0]) := ItemValue(items[0])], options)
  }

  lemma {:induction false} SeparatorOfInline(name: string, value: string)
    requires '=' !in name
    ensures Separator(name + "=" + value) == Some(|name|)
  {
    if name == "" {
      assert (name + "=" + value)[0] == '=';
    } else {
      SeparatorOfInline(name[1..], value);
      assert (name + "=" + value)[0] == name[0];
      assert (name + "=" + value)[1..] == name[1..] + "=" + value;
    }
  }

  /** The parser takes a rendered option off the front. */
  lemma ParseItem(allowed: set<string>, item: Item, rest: seq<string>, options: Options)
    requires PlainNames(allowed) && Writable(allowed, item) && ItemName(item) !in options
    ensures ParseRest(allowed, RenderItem(item) + rest, options) ==
              ParseRest(allowed, rest, options[ItemName(item) := ItemValue(item)])
  {
    hide Separator;
    var args := RenderItem(item) + rest;
    match item
    case Help =>
      assert args[1..] == rest;
    case Inline(name, value) =>
      SeparatorOfInline(name, value);
      assert args[0] == name + "=" + value;
      assert args[0][..|name|] == name && args[0][|name| + 1..] == value;
      assert args[0] != HELP by {
        assert args[0][|name|] == '=';
      }
      assert args[1..] == rest;
    case Spaced(name, value) =>
      assert args[0] == name && args[1] == value && args[2..] == rest;
  }

  /** Behind rendered options the parser goes on with the options they write down. */
  lemma {:induction false} ParseRendered(allowed: set<string>, items: seq<Item>, tail: seq<string>, before: Options,
                                         options: Options)
    requires PlainNames(allowed) && Extends(allowed, items, before, options)
    ensures ParseRest(allowed, Render(items) + tail, before) == ParseRest(allowed, tail, options)
    decreases |items|
  {
    hide Separator, PlainNames, Writable, RenderItem, ItemName, ItemValue, ParseRest;
    if items == [] {
      assert Render(items) + tail == tail;
    } else {
      assert Render(items) + tail == RenderItem(items[0]) + (Render(items[1..]) + tail);
      ParseItem(allowed, items[0], Render(items[1..]) + tail, before);
      ParseRendered(allowed, items[1..], tail, before[ItemName(items[0]) := ItemValue(items[0])], options);
    }
  }

  /** The options that an accepted list was written from. */
  function ItemsOf(allowed: set<string>, args: seq<string>, options: Options): seq<Item>
    requires ParseRest(allowed, args, options).Ok?
    decreases |args|
  {
    if args == [] then []
    else if args[0] == HELP then [Help] + ItemsOf(allowed, args[1..], options[HELP := "true"])
    else
      var name, value := NameOf(args[0]), ValueOf(args).value;
      [if Separator(args[0]).Some? then Inline(name, value) else Spaced(name, value)]
      + ItemsOf(allowed, args[Width(args)..], options[name := value])
  }

  /** An option and its value are the item they were written from. */
  lemma HeadIsItem(args: seq<string>)
    requires args != [] && ValueOf(args).Some?
    ensures var name, value := NameOf(args[0]), ValueOf(args).value;
            Width(args) <= |args|
            && var item := if Separator(args[0]).Some? then Inline(name, value) else Spaced(name, value);
            args == RenderItem(item) + args[Width(args)..]
  {
    hide Separator;
    match Separator(args[0])
    case Some(n) =>
      assert args[0] == args[0][..n] + "=" + args[0][n + 1..];
      assert args == [args[0]] + args[1..];
    case None =>
      assert args == [args[0], args[1]] + args[2..];
  }

  lemma UsableMeaning(v: Option<string>)
    ensures UsableValue(v) <==> v.Some? && v.value != "" && !("--" <= v.value)
  {
  }

  lemma {:induction false} AcceptedIsRendered(allowed: set<string>, args: seq<string>, options: Options)
    requires PlainNames(allowed) && ParseRest(allowed, args, options).Ok?
    ensures Render(ItemsOf(allowed, args, options)) == args
    ensures Extends(allowed, ItemsOf(allowed, args, options), options, ParseRest(allowed, args, options).value)
    decreases |args|
  {
    hide Separator, Dashed, NameOf, ValueOf, Width, RenderItem;
    if args == [] {
    } else if args[0] == HELP {
      AcceptedIsRendered(allowed, args[1..], options[HELP := "true"]);
      RenderHelp();
      assert args == [HELP] + args[1..];
    } else {
      HeadIsItem(args);
      UsableMeaning(ValueOf(args));
      AcceptedIsRendered(allowed, args[Width(args)..], options[NameOf(args[0]) := ValueOf(args).value]);
    }
  }

  lemma RenderHelp()
    ensures RenderItem(Help) == [HELP]
  {
  }

  /** `Extends` said all at once. */
  predicate Extension(allowed: set<string>, items: seq<Item>, before: Options, options: Options) {
    && (forall i | 0 <= i < |items| ::
          && Writable(allowed, items[i]) && ItemName(items[i]) !in before
          && ItemName(items[i]) in options && options[ItemName(items[i])] == ItemValue(items[i]))
    && (forall i, j | 0 <= i < j < |items| :: ItemName(items[i]) != ItemName(items[j]))
    && (forall n | n in before :: n in options && options[n] == before[n])
    && (forall n | n in options :: n in before || exists i | 0 <= i < |items| :: ItemName(items[i]) == n)
  }

  lemma ExtensionGrows(allowed: set<string>, item: Item, rest: seq<Item>, before: Options, options: Options)
    requires Writable(allowed, item) && ItemName(item) !in before
    requires Extension(allowed, rest, before[ItemName(item) := ItemValue(item)], options)
    ensures Extension(allowed, [item] + rest, before, options)
  {
    hide Writable, ItemName, ItemValue;
    var items := [item] + rest;
    assert forall i | 1 <= i < |items| :: items[i] == rest[i - 1];
    forall n | n in options
      ensures n in before || exists i | 0 <= i < |items| :: ItemName(items[i]) == n
    {
      if n == ItemName(item) {
        assert ItemName(items[0]) == n;
      } else if n !in before {
        var i :| 0 <= i < |rest| && ItemName(rest[i]) == n;
        assert ItemName(items[i + 1]) == n;
      }
    }
  }

  lemma ExtensionShrinks(allowed: set<string>, item: Item, rest: seq<Item>, before: Options, options: Options)
    requires Extension(allowed, [item] + rest, before, options)
    ensures Writable(allowed, item) && ItemName(item) !in before
    ensures Extension(allowed, rest, before[ItemName(item) := ItemValue(item)], options)
  {
    hide Writable, ItemName, ItemValue;
    var items, next := [item] + rest, before[ItemName(item) := ItemValue(item)];
    assert items[0] == item;
    forall i | 0 <= i < |rest|
      ensures Writable(allowed, rest[i]) && ItemName(rest[i]) !in next
      ensures ItemName(rest[i]) in options && options[ItemName(rest[i])] == ItemValue(rest[i])
    {
      assert items[i + 1] == rest[i];
      assert ItemName(items[0]) != ItemName(items[i + 1]);
    }
    forall i, j | 0 <= i < j < |rest|
      ensures ItemName(rest[i]) != ItemName(rest[j])
    {
      assert items[i + 1] == rest[i] && items[j + 1] == rest[j];
    }
    forall n | n in options
      ensures n in next || exists i | 0 <= i < |rest| :: ItemName(rest[i]) == n
    {
      if n !in next {
        var i :| 0 <= i < |items| && ItemName(items[i]) == n;
        assert items[i] == rest[i - 1];
      }
    }
  }

  lemma {:induction false} ExtendsMeaning(allowed: set<string>, items: seq<Item>, before: Options, options: Options)
    ensures Extends(allowed, items, before, options) <==> Extension(allowed, items, before, options)
    decreases |items|
  {
    if items == [] {
      hide Writable, ItemName, ItemValue;
      SameMap(before, options);
    } else {
      hide Writable, ItemName, ItemValue, Extension;
      var next := before[ItemName(items[0]) := ItemValue(items[0])];
      ExtendsMeaning(allowed, items[1..], next, options);
      assert items == [items[0]] + items[1..];
      if Extension(allowed, items, before, options) {
        ExtensionShrinks(allowed, items[0], items[1..], before, options);
      } else if Extends(allowed, items, before, options) {
        ExtensionGrows(allowed, items[0], items[1..], before, options);
      }
    }
  }

  lemma SameMap(a: Options, b: Options)
    ensures a == b <==> (forall n | n in a :: n in b && b[n] == a[n]) && forall n | n in b :: n in a
  {
  }

  lemma ListsIsExtends(allowed: set<string>, items: seq<Item>, options: Options)
    ensures Lists(allowed, items, options) <==> Extends(allowed, items, map[], options)
  {
    hide Extends, Writable, ItemName, ItemValue;
    ExtendsMeaning(allowed, items, map[], options);
  }

  /** An argument list and a writing of it, with or without the leading dashes. */
  predicate Writes(allowed: set<string>, args: seq<string>, items: seq<Item>, options: Options) {
    Lists(allowed, items, options) && (args == Render(items) || args == ["--"] + Render(items))
  }

  lemma RenderedStart(allowed: set<string>, items: seq<Item>)
    requires PlainNames(allowed) && items != [] && Writable(allowed, items[0])
    ensures Render(items) != [] && Render(items)[0] != "--"
  {
    if items[0].Inline? {
      assert Render(items)[0][|items[0].name|] == '=';
    }
  }

  /** However an option map is written, it parses back to itself. */
  lemma WrittenParses(allowed: set<string>, args: seq<string>, items: seq<Item>, options: Options)
    requires PlainNames(allowed) && Writes(allowed, args, items, options)
    ensures Parse(allowed, args) == Ok(options)
  {
    hide ParseRest, Render, Extends, PlainNames;
    ListsIsExtends(allowed, items, options);
    ParseRendered(allowed, items, [], map[], options);
    NothingLeft(allowed, options);
    assert Render(items) + [] == Render(items);
    RenderNothing();
    if items != [] {
      RenderedStart(allowed, items);
    }
    if args == ["--"] + Render(items) {
      assert args[1..] == Render(items);
    }
  }

  lemma RenderNothing()
    ensures Render([]) == []
  {
  }

  /** The parser accepts exactly the writings of option maps, and returns the map that was written. */
  lemma ParsesExactlyWritings(allowed: set<string>, args: seq<string>, options: Options)
    requires PlainNames(allowed)
    ensures Parse(allowed, args) == Ok(options) <==> exists items :: Writes(allowed, args, items, options)
  {
    hide ParseRest, Extends, PlainNames, Render;
    if Parse(allowed, args) == Ok(options) {
      var rest := WithoutLead(args);
      var items := ItemsOf(allowed, rest, map[]);
      AcceptedIsRendered(allowed, rest, map[]);
      ListsIsExtends(allowed, items, options);
      if args != [] && args[0] == "--" {
        assert args == ["--"] + rest;
      }
      assert Writes(allowed, args, items, options);
    }
    if exists items :: Writes(allowed, args, items, options) {
      var items :| Writes(allowed, args, items, options);
      WrittenParses(allowed, args, items, options);
    }
  }

  // ----- refusals -----

  /**
    Behind any written options, the first argument that does not go on is refused for what is wrong with it:
    it is no option, has a name that is not allowed, repeats one, or has no value that can be taken.
   */
  lemma RefusalExactly(allowed: set<string>, items: seq<Item>, options: Options, tail: seq<string>, name: string,
                       inline: Option<string>)
    requires PlainNames(allowed) && Lists(allowed, items, options)
    requires tail != [] && '=' !in name && tail[0] == name + if inline.None? then "" else "=" + inline.value
    ensures var verdict := Parse(allowed, ["--"] + Render(items) + tail);
            var next := if |tail| > 1 then Some(tail[1]) else None;
            var value := if inline.Some? then inline else next;
            if tail[0] == "--help" then "--help" in options ==> verdict == Err("duplicate_option")
            else if !("--" <= tail[0]) then verdict == Err("unexpected_argument")
            else if name !in allowed then verdict == Err("unknown_option")
            else if name in options then verdict == Err("duplicate_option")
            else value == None || value.value == "" || "--" <= value.value ==> verdict == Err("invalid_option_value")
  {
    hide ParseRest, Render, Lists, Extends, PlainNames, Separator;
    ListsIsExtends(allowed, items, options);
    var args := ["--"] + Render(items) + tail;
    assert args[0] == "--" && args[1..] == Render(items) + tail;
    ParseRendered(allowed, items, tail, map[], options);
    if tail[0] == HELP {
      HelpAtHead(allowed, tail, options);
    } else {
      OptionAtHead(allowed, tail, options);
      ReadApart(tail, name, inline);
    }
  }

  lemma ReadApart(args: seq<string>, name: string, inline: Option<string>)
    requires args != [] && '=' !in name && args[0] == name + if inline.None? then "" else "=" + inline.value
    ensures NameOf(args[0]) == name
    ensures ValueOf(args) == if inline.Some? then inline else if |args| > 1 then Some(args[1]) else None
  {
    hide Separator;
    if inline.None? {
      assert args[0] == name;
    } else {
      assert args[0] == name + "=" + inline.value;
      SeparatorOfInline(name, inline.value);
      assert args[0][..|name|] == name && args[0][|name| + 1..] == inline.value;
    }
  }

  // ----- the probe's own options -----

  const TARGETS := ["organizer", "search", "verifier", "web", "worker"]

  const FIXED := {"--environment", "--expected-commit", "--timeout-ms", "--confirm-production", "--output"}

  const VALUE_OPTIONS :=
    FIXED
    + (set i | 0 <= i < |TARGETS| :: "--" + TARGETS[i] + "-deployment")
    + (set i | 0 <= i < |TARGETS| :: "--" + TARGETS[i] + "-origin")

  lemma FixedNamePlain(n: string)
    requires n in FIXED
    ensures "--" <= n && '=' !in n && n != HELP && n != "--"
  {
    assert |HELP| == 6;
  }

  lemma TargetNamePlain(target: string, rest: string)
    requires '=' !in target && '=' !in rest && |rest| >= 7
    ensures var n := "--" + target + rest; "--" <= n && '=' !in n && n != HELP && n != "--"
  {
    assert |HELP| == 6;
  }

  lemma TargetsPlain(i: nat)
    requires i < |TARGETS|
    ensures '=' !in TARGETS[i]
  {
  }

  lemma ShippedNamesArePlain()
    ensures PlainNames(VALUE_OPTIONS)
  {
    hide Dashed, TARGETS;
    forall n | n in VALUE_OPTIONS
      ensures "--" <= n && '=' !in n && n != HELP && n != "--"
    {
      if n in FIXED {
        FixedNamePlain(n);
      } else {
        var i :| 0 <= i < |TARGETS| && (n == "--" + TARGETS[i] + "-deployment" || n == "--" + TARGETS[i] + "-origin");
        TargetsPlain(i);
        TargetNamePlain(TARGETS[i], "-deployment");
        TargetNamePlain(TARGETS[i], "-origin");
      }
    }
  }
}
