// Which schemas are accepted, by the places of their subschemas
// (agent-platform/outputcontract/validate.go).
module SchemaPlaces {
  import opened Collections
  import opened KeyOrder
  import opened CanonicalJson
  import opened SchemaPolicy

  /** One step from a schema to a subschema. */
  datatype Hop = Only(key: string) | Item(key: string, index: nat) | Entry(key: string, name: string)

  /** The keywords whose value is a schema, a list of schemas, or schemas by name. */
  function SchemaKeys(): set<string> {
    {"additionalProperties", "contains", "else", "if", "items", "not", "propertyNames", "then", "unevaluatedItems",
     "unevaluatedProperties"}
  }

  function SchemaListKeys(): set<string> {
    {"allOf", "anyOf", "oneOf", "prefixItems"}
  }

  function SchemaMapKeys(): set<string> {
    {"$defs", "dependentSchemas", "patternProperties", "properties"}
  }

  /** The keywords that bear no schema: those about the document, those about one kind of
      value, and those about any. */
  function DocumentKeys(): set<string> {
    {"$anchor", "$comment", "$ref", "$schema", "deprecated", "description", "examples", "readOnly", "title",
     "writeOnly"}
  }

  function NumberKeys(): set<string> {
    {"exclusiveMaximum", "exclusiveMinimum", "maximum", "minimum", "multipleOf", "maxLength", "minLength", "pattern"}
  }

  function CollectionKeys(): set<string> {
    {"dependentRequired", "maxContains", "maxItems", "maxProperties", "minContains", "minItems", "minProperties",
     "required", "uniqueItems"}
  }

  function ValueKeys(): set<string> {
    {"const", "default", "enum", "type"}
  }

  predicate KnownKey(key: string) {
    || key in SchemaKeys() || key in SchemaListKeys() || key in SchemaMapKeys() || key in DocumentKeys()
    || key in NumberKeys() || key in CollectionKeys() || key in ValueKeys()
  }

  function KnownKeys(): set<string> {
    SchemaKeys() + SchemaListKeys() + SchemaMapKeys() + DocumentKeys() + NumberKeys() + CollectionKeys() + ValueKeys()
  }

  function Goes(node: Json, h: Hop): (child: Option<Json>)
    ensures child.Some? ==> child.value < node
  {
    if !node.JObject? || h.key !in node.members then None
    else
      var value := node.members[h.key];
      match h
      case Only(key) => if key in SchemaKeys() then Some(value) else None
      case Item(key, i) =>
        if key in SchemaListKeys() && value.JArray? && i < |value.items| then Some(value.items[i]) else None
      case Entry(key, name) =>
        if key in SchemaMapKeys() && value.JObject? && name in value.members then Some(value.members[name]) else None
  }

  /** The subschema at a place. */
  function At(node: Json, place: seq<Hop>): Option<Json>
    decreases |place|
  {
    if place == [] then Some(node)
    else
      match Goes(node, place[0])
      case None => None
      case Some(child) => At(child, place[1..])
  }

  /** What every subschema must meet by itself: the dialect at the root alone, only known
      keywords, references into the same document, and at most 32 alternatives. */
  ghost predicate Fits(node: Json, root: bool) {
    match node
    case JBool(_) => !root
    case JObject(members) =>
      && (if root then "$schema" in members && members["$schema"] == JString(Draft()) else "$schema" !in members)
      && (forall key :: key in members ==> KeyFits(members, key))
      && (forall key :: key in members && key in {"allOf", "anyOf", "oneOf"} && members[key].JArray? ==>
            |members[key].items| <= 32)
    case _ => false
  }

  function Draft(): string {
    "https://json-schema.org/draft/2020-12/schema"
  }

  ghost predicate KeyFits(members: map<string, Json>, key: string)
    requires key in members
  {
    && KnownKey(key)
    && (key == "$ref" && members[key].JString? ==> members[key].s != "" && members[key].s[0] == '#')
  }

  // ----- local tests -----

  lemma {:induction false} KeywordsAre(key: string)
    ensures key in ALLOWED_KEYWORDS <==> KnownKey(key)
  {
    hide SchemaKeys, SchemaListKeys, SchemaMapKeys, DocumentKeys, NumberKeys, CollectionKeys, ValueKeys;
    AllowedAreKnown();
    KnownAreAllowed();
    assert key in KnownKeys() <==> KnownKey(key);
  }

  lemma {:induction false} AllowedAreKnown()
    ensures ALLOWED_KEYWORDS <= KnownKeys()
  {
    hide KnownKeys;
    DollarToConst();
    ContainsToEnum();
    ExamplesToMaxLength();
    MaxPropertiesToMultipleOf();
    NotToReadOnly();
    RequiredToWriteOnly();
  }

  lemma {:induction false} DollarToConst()
    ensures {"$anchor", "$comment", "$defs", "$ref", "$schema", "additionalProperties", "allOf", "anyOf", "const"}
         <= KnownKeys()
  {
  }

  lemma {:induction false} ContainsToEnum()
    ensures {"contains", "default", "dependentRequired", "dependentSchemas", "deprecated", "description", "else",
             "enum"} <= KnownKeys()
  {
  }

  lemma {:induction false} ExamplesToMaxLength()
    ensures {"examples", "exclusiveMaximum", "exclusiveMinimum", "if", "items", "maxContains", "maxItems", "maxLength"}
         <= KnownKeys()
  {
  }

  lemma {:induction false} MaxPropertiesToMultipleOf()
    ensures {"maxProperties", "maximum", "minContains", "minItems", "minLength", "minProperties", "minimum",
             "multipleOf"} <= KnownKeys()
  {
  }

  lemma {:induction false} NotToReadOnly()
    ensures {"not", "oneOf", "pattern", "patternProperties", "prefixItems", "properties", "propertyNames", "readOnly"}
         <= KnownKeys()
  {
  }

  lemma {:induction false} RequiredToWriteOnly()
    ensures {"required", "then", "title", "type", "unevaluatedItems", "unevaluatedProperties", "uniqueItems",
             "writeOnly"} <= KnownKeys()
  {
  }

  lemma {:induction false} KnownAreAllowed()
    ensures KnownKeys() <= ALLOWED_KEYWORDS
  {
    hide SchemaKeys, SchemaListKeys, SchemaMapKeys, DocumentKeys, NumberKeys, CollectionKeys, ValueKeys;
    SchemasAllowed();
    DocumentsAllowed();
    NumbersAllowed();
    CollectionsAllowed();
  }

  lemma {:induction false} SchemasAllowed()
    ensures SchemaKeys() <= ALLOWED_KEYWORDS && SchemaListKeys() <= ALLOWED_KEYWORDS
  {
  }

  lemma {:induction false} DocumentsAllowed()
    ensures SchemaMapKeys() <= ALLOWED_KEYWORDS && DocumentKeys() <= ALLOWED_KEYWORDS
  {
  }

  lemma {:induction false} NumbersAllowed()
    ensures NumberKeys() <= ALLOWED_KEYWORDS && ValueKeys() <= ALLOWED_KEYWORDS
  {
  }

  lemma {:induction false} CollectionsAllowed()
    ensures CollectionKeys() <= ALLOWED_KEYWORDS
  {
  }

  /** No allowed keyword is forbidden, so being allowed decides. */
  lemma {:induction false} NoneForbidden(key: string)
    requires KnownKey(key)
    ensures !Forbidden(key)
  {
    hide KnownKey;
    NoneNamed(key);
    NoneContent(key);
  }

  lemma {:induction false} NoneNamed(key: string)
    requires KnownKey(key)
    ensures key !in {"$id", "$dynamicRef", "$dynamicAnchor", "$vocabulary", "format"}
  {
  }

  lemma {:induction false} NoneContent(key: string)
    requires KnownKey(key)
    ensures !("content" <= key)
  {
    ContentBegins(key);
  }

  lemma {:induction false} ContentBegins(key: string)
    ensures "content" <= key ==> |key| >= 7 && key[0] == 'c' && key[1] == 'o' && key[2] == 'n' && key[6] == 't'
  {
  }

  lemma {:induction false} KeyFitsIff(members: map<string, Json>, key: string)
    requires key in members
    ensures KeyFault(members, key).None? <==> KeyFits(members, key)
  {
    hide Forbidden, KnownKey;
    KeywordsAre(key);
    if KnownKey(key) {
      NoneForbidden(key);
    }
    if members[key].JString? {
      HashFirst(members[key].s);
    }
  }

  lemma {:induction false} HashFirst(s: string)
    ensures "#" <= s <==> s != "" && s[0] == '#'
  {
  }

  /** What is reported for a faulty key. */
  lemma {:induction false} KeyFaultIs(members: map<string, Json>, key: string)
    requires key in members && KeyFault(members, key).Some?
    ensures var content := |key| >= 7 && key[..7] == "content";
      var forbidden := content || key in {"$id", "$dynamicRef", "$dynamicAnchor", "$vocabulary", "format"};
      KeyFault(members, key).value ==
        if forbidden then ForbiddenKeyword else if key == "$ref" then ExternalReference else UnknownKeyword
  {
    ReferenceAllowed();
    if "content" <= key {
      assert key[..7] == "content";
    }
  }

  lemma {:induction false} ReferenceAllowed()
    ensures "$ref" in ALLOWED_KEYWORDS && !Forbidden("$ref")
  {
    KeywordsAre("$ref");
    NoneForbidden("$ref");
  }

  lemma {:induction false} FitsIff(node: Json, root: bool)
    ensures LocallyRight(node, root) <==> Fits(node, root)
  {
    hide KeyFault, KeyFits, Overlong;
    if node.JObject? {
      forall key | key in node.members
        ensures KeyFault(node.members, key).None? <==> KeyFits(node.members, key)
      {
        KeyFitsIff(node.members, key);
      }
      OverlongIff(node);
    }
  }

  lemma {:induction false} OverlongIff(node: Json)
    requires node.JObject?
    ensures (forall i :: 0 <= i < |ARRAY_KEYWORDS| ==> !Overlong(node, ARRAY_KEYWORDS[i])) <==>
      forall key :: key in node.members && key in {"allOf", "anyOf", "oneOf"} && node.members[key].JArray? ==>
        |node.members[key].items| <= 32
  {
    assert ARRAY_KEYWORDS[0] == "allOf" && ARRAY_KEYWORDS[1] == "anyOf" && ARRAY_KEYWORDS[2] == "oneOf";
    forall key | key in {"allOf", "anyOf", "oneOf"}
      ensures Overlong(node, key) <==> key in node.members && node.members[key].JArray?
                                       && |node.members[key].items| > 32
    {
    }
    assert !Combinator(ARRAY_KEYWORDS[3]);
  }

  // ----- the hops of a node, beside its steps -----

  function SingleHops(node: Json, keys: seq<string>): seq<Hop>
    requires node.JObject?
  {
    if keys == [] then [] else SingleHopsOf(node, keys[0]) + SingleHops(node, keys[1..])
  }

  function SingleHopsOf(node: Json, key: string): seq<Hop>
    requires node.JObject?
  {
    if key in node.members then [Only(key)] else []
  }

  function ArrayHopsOf(node: Json, key: string): seq<Hop>
    requires node.JObject?
  {
    if key !in node.members || !node.members[key].JArray? then []
    else ItemHops(key, |node.members[key].items|)
  }

  function ItemHops(key: string, n: nat): (hops: seq<Hop>)
    ensures |hops| == n && forall i :: 0 <= i < n ==> hops[i] == Item(key, i)
  {
    seq(n, i requires 0 <= i => Item(key, i))
  }

  function ArrayHops(node: Json, i: nat): seq<Hop>
    requires node.JObject? && i <= |ARRAY_KEYWORDS|
    decreases |ARRAY_KEYWORDS| - i
  {
    if i == |ARRAY_KEYWORDS| then [] else ArrayHopsOf(node, ARRAY_KEYWORDS[i]) + ArrayHops(node, i + 1)
  }

  function NamedHops(key: string, names: seq<string>): (hops: seq<Hop>)
    ensures |hops| == |names| && forall i :: 0 <= i < |hops| ==> hops[i] == Entry(key, names[i])
  {
    seq(|names|, i requires 0 <= i < |names| => Entry(key, names[i]))
  }

  ghost function MapHopsOf(node: Json, key: string): seq<Hop>
    requires node.JObject?
  {
    if key !in node.members || !node.members[key].JObject? then []
    else NamedHops(key, SortedKeys(node.members[key].members.Keys))
  }

  ghost function MapHops(node: Json, i: nat): seq<Hop>
    requires node.JObject? && i <= |MAP_KEYWORDS|
    decreases |MAP_KEYWORDS| - i
  {
    if i == |MAP_KEYWORDS| then [] else MapHopsOf(node, MAP_KEYWORDS[i]) + MapHops(node, i + 1)
  }

  ghost function Hops(node: Json): seq<Hop>
    requires node.JObject?
  {
    SingleHops(node, SINGLE_KEYWORDS) + ArrayHops(node, 0) + MapHops(node, 0)
  }

  /** Each step visits what its hop leads to. */
  ghost predicate Match(node: Json, hops: seq<Hop>, steps: seq<Step>) {
    && |hops| == |steps|
    && forall i :: 0 <= i < |hops| ==> steps[i].Visit? && Goes(node, hops[i]) == Some(steps[i].child)
  }

  lemma {:induction false} MatchConcat(node: Json, a: seq<Hop>, s: seq<Step>, b: seq<Hop>, t: seq<Step>)
    requires Match(node, a, s) && Match(node, b, t)
    ensures Match(node, a + b, s + t)
  {
  }

  lemma {:induction false} SingleMatch(node: Json, keys: seq<string>)
    requires node.JObject? && forall key :: key in keys ==> key in SchemaKeys()
    ensures Match(node, SingleHops(node, keys), SingleSteps(node, keys))
  {
    hide SchemaKeys;
    if keys != [] {
      assert keys[0] in keys && forall key :: key in keys[1..] ==> key in keys;
      SingleMatch(node, keys[1..]);
      MatchConcat(node, SingleHopsOf(node, keys[0]), SingleStepsOf(node, keys[0]),
                  SingleHops(node, keys[1..]), SingleSteps(node, keys[1..]));
    }
  }

  lemma {:induction false} SingleHopsAre(node: Json, keys: seq<string>, h: Hop)
    requires node.JObject?
    ensures h in SingleHops(node, keys) <==> h.Only? && h.key in keys && h.key in node.members
  {
    if keys != [] {
      SingleHopsAre(node, keys[1..], h);
      assert h.key in keys <==> h.key == keys[0] || h.key in keys[1..];
    }
  }

  ghost predicate Apart<T>(s: seq<T>) {
    forall i, j :: 0 <= i < j < |s| ==> s[i] != s[j]
  }

  lemma {:induction false} ApartConcat<T(!new)>(a: seq<T>, b: seq<T>)
    requires Apart(a) && Apart(b) && forall x :: x in a ==> x !in b
    ensures Apart(a + b)
  {
    forall i, j | 0 <= i < j < |a + b|
      ensures (a + b)[i] != (a + b)[j]
    {
      if i < |a| <= j {
        assert a[i] in a && b[j - |a|] in b;
      }
    }
  }

  lemma {:induction false} SingleApart(node: Json, keys: seq<string>)
    requires node.JObject? && Apart(keys)
    ensures Apart(SingleHops(node, keys))
  {
    if keys != [] {
      SingleApart(node, keys[1..]);
      SingleHopsAre(node, keys[1..], Only(keys[0]));
      ApartConcat(SingleHopsOf(node, keys[0]), SingleHops(node, keys[1..]));
    }
  }

  lemma {:induction false} ArrayMatch(node: Json, i: nat)
    requires node.JObject? && i <= |ARRAY_KEYWORDS|
    requires forall j :: 0 <= j < |ARRAY_KEYWORDS| ==> !Overlong(node, ARRAY_KEYWORDS[j])
    ensures Match(node, ArrayHops(node, i), ArraySteps(node, i))
    decreases |ARRAY_KEYWORDS| - i
  {
    if i < |ARRAY_KEYWORDS| {
      var key := ARRAY_KEYWORDS[i];
      ArrayMatch(node, i + 1);
      ArrayMatchOf(node, key);
      MatchConcat(node, ArrayHopsOf(node, key), ArrayStepsOf(node, key),
                  ArrayHops(node, i + 1), ArraySteps(node, i + 1));
    }
  }

  lemma {:induction false} ArrayMatchOf(node: Json, key: string)
    requires node.JObject? && key in SchemaListKeys() && !Overlong(node, key)
    ensures Match(node, ArrayHopsOf(node, key), ArrayStepsOf(node, key))
  {
    hide SchemaListKeys, SchemaKeys, SchemaMapKeys, Combinator;
  }

  lemma {:induction false} ArrayHopsAre(node: Json, i: nat, h: Hop)
    requires node.JObject? && i <= |ARRAY_KEYWORDS|
    ensures h in ArrayHops(node, i)
       <==> h.Item? && h.key in ARRAY_KEYWORDS[i..] && h.key in node.members && node.members[h.key].JArray?
            && h.index < |node.members[h.key].items|
    decreases |ARRAY_KEYWORDS| - i
  {
    if i < |ARRAY_KEYWORDS| {
      ArrayHopsAre(node, i + 1, h);
      ArrayHopsOfAre(node, ARRAY_KEYWORDS[i], h);
      assert ARRAY_KEYWORDS[i..] == [ARRAY_KEYWORDS[i]] + ARRAY_KEYWORDS[i + 1..];
    }
  }

  lemma {:induction false} ArrayHopsOfAre(node: Json, key: string, h: Hop)
    requires node.JObject?
    ensures h in ArrayHopsOf(node, key)
       <==> h.Item? && h.key == key && key in node.members && node.members[key].JArray?
            && h.index < |node.members[key].items|
  {
    if h.Item? && h.key == key && key in node.members && node.members[key].JArray?
       && h.index < |node.members[key].items| {
      assert ArrayHopsOf(node, key)[h.index] == h;
    }
  }

  lemma {:induction false} ArrayApart(node: Json, i: nat)
    requires node.JObject? && i <= |ARRAY_KEYWORDS| && Apart(ARRAY_KEYWORDS)
    ensures Apart(ArrayHops(node, i))
    decreases |ARRAY_KEYWORDS| - i
  {
    if i < |ARRAY_KEYWORDS| {
      var key := ARRAY_KEYWORDS[i];
      ArrayApart(node, i + 1);
      forall h | h in ArrayHopsOf(node, key)
        ensures h !in ArrayHops(node, i + 1)
      {
        ArrayHopsOfAre(node, key, h);
        ArrayHopsAre(node, i + 1, h);
      }
      ApartConcat(ArrayHopsOf(node, key), ArrayHops(node, i + 1));
    }
  }

  lemma {:induction false} MapMatch(node: Json, i: nat)
    requires node.JObject? && i <= |MAP_KEYWORDS|
    ensures Match(node, MapHops(node, i), MapSteps(node, i))
    decreases |MAP_KEYWORDS| - i
  {
    if i < |MAP_KEYWORDS| {
      var key := MAP_KEYWORDS[i];
      MapMatch(node, i + 1);
      if key in node.members && node.members[key].JObject? {
        NamedMatch(node, key, SortedKeys(node.members[key].members.Keys));
      }
      MatchConcat(node, MapHopsOf(node, key), MapStepsOf(node, key), MapHops(node, i + 1), MapSteps(node, i + 1));
    }
  }

  lemma {:induction false} NamedMatch(node: Json, key: string, names: seq<string>)
    requires node.JObject? && key in node.members && node.members[key].JObject? && key in SchemaMapKeys()
    requires Elements(names) <= node.members[key].members.Keys
    ensures Match(node, NamedHops(key, names), Named(node, key, names))
  {
    hide SchemaListKeys, SchemaKeys, SchemaMapKeys;
    if names != [] {
      assert names[0] in Elements(names);
      NamedMatch(node, key, names[1..]);
      assert NamedHops(key, names) == [Entry(key, names[0])] + NamedHops(key, names[1..]);
    }
  }

  lemma {:induction false} MapHopsAre(node: Json, i: nat, h: Hop)
    requires node.JObject? && i <= |MAP_KEYWORDS|
    ensures h in MapHops(node, i)
       <==> h.Entry? && h.key in MAP_KEYWORDS[i..] && h.key in node.members && node.members[h.key].JObject?
            && h.name in node.members[h.key].members
    decreases |MAP_KEYWORDS| - i
  {
    if i < |MAP_KEYWORDS| {
      MapHopsAre(node, i + 1, h);
      MapHopsOfAre(node, MAP_KEYWORDS[i], h);
      assert MAP_KEYWORDS[i..] == [MAP_KEYWORDS[i]] + MAP_KEYWORDS[i + 1..];
    }
  }

  lemma {:induction false} MapHopsOfAre(node: Json, key: string, h: Hop)
    requires node.JObject?
    ensures h in MapHopsOf(node, key)
       <==> h.Entry? && h.key == key && key in node.members && node.members[key].JObject?
            && h.name in node.members[key].members
  {
    if key in node.members && node.members[key].JObject? {
      var names := SortedKeys(node.members[key].members.Keys);
      if h.Entry? && h.key == key && h.name in node.members[key].members {
        assert h.name in Elements(names);
        var i :| 0 <= i < |names| && names[i] == h.name;
        assert MapHopsOf(node, key)[i] == h;
      }
      if h in MapHopsOf(node, key) {
        var i :| 0 <= i < |names| && NamedHops(key, names)[i] == h;
        assert names[i] in Elements(names);
      }
    }
  }

  lemma {:induction false} MapApart(node: Json, i: nat)
    requires node.JObject? && i <= |MAP_KEYWORDS| && Apart(MAP_KEYWORDS)
    ensures Apart(MapHops(node, i))
    decreases |MAP_KEYWORDS| - i
  {
    if i < |MAP_KEYWORDS| {
      var key := MAP_KEYWORDS[i];
      MapApart(node, i + 1);
      forall h | h in MapHopsOf(node, key)
        ensures h !in MapHops(node, i + 1)
      {
        MapHopsOfAre(node, key, h);
        MapHopsAre(node, i + 1, h);
      }
      MapApartOf(node, key);
      ApartConcat(MapHopsOf(node, key), MapHops(node, i + 1));
    }
  }

  lemma {:induction false} MapApartOf(node: Json, key: string)
    requires node.JObject?
    ensures Apart(MapHopsOf(node, key))
  {
    if key in node.members && node.members[key].JObject? {
      var names := SortedKeys(node.members[key].members.Keys);
      forall i, j | 0 <= i < j < |names|
        ensures names[i] != names[j]
      {
        BeforeIsOrder(names[i], names[j], names[i]);
      }
    }
  }

  lemma {:induction false} TablesApart()
    ensures Apart(SINGLE_KEYWORDS) && Apart(ARRAY_KEYWORDS) && Apart(MAP_KEYWORDS)
  {
  }

  lemma {:induction false} TablesAre(key: string)
    ensures key in SINGLE_KEYWORDS <==> key in SchemaKeys()
    ensures key in ARRAY_KEYWORDS <==> key in SchemaListKeys()
    ensures key in MAP_KEYWORDS <==> key in SchemaMapKeys()
  {
  }

  /** The hops of a node are exactly those that lead somewhere, each listed once. */
  lemma {:induction false} HopsAre(node: Json)
    requires node.JObject?
    ensures Apart(Hops(node)) && forall h :: h in Hops(node) <==> Goes(node, h).Some?
  {
    hide SchemaKeys, SchemaListKeys, SchemaMapKeys, Apart;
    TablesApart();
    SingleApart(node, SINGLE_KEYWORDS);
    ArrayApart(node, 0);
    MapApart(node, 0);
    var a, b, c := SingleHops(node, SINGLE_KEYWORDS), ArrayHops(node, 0), MapHops(node, 0);
    forall h
      ensures h in a ==> h.Only?
      ensures h in b ==> h.Item?
      ensures h in c ==> h.Entry?
      ensures h in a + b + c <==> Goes(node, h).Some?
    {
      HopIs(node, h);
    }
    ApartConcat(a, b);
    ApartConcat(a + b, c);
  }

  lemma {:induction false} HopIs(node: Json, h: Hop)
    requires node.JObject?
    ensures h in SingleHops(node, SINGLE_KEYWORDS) <==> h.Only? && Goes(node, h).Some?
    ensures h in ArrayHops(node, 0) <==> h.Item? && Goes(node, h).Some?
    ensures h in MapHops(node, 0) <==> h.Entry? && Goes(node, h).Some?
  {
    hide SchemaKeys, SchemaListKeys, SchemaMapKeys;
    TablesAre(h.key);
    SingleHopsAre(node, SINGLE_KEYWORDS, h);
    ArrayHopsAre(node, 0, h);
    MapHopsAre(node, 0, h);
    assert ARRAY_KEYWORDS[0..] == ARRAY_KEYWORDS && MAP_KEYWORDS[0..] == MAP_KEYWORDS;
  }

  /** Unless a combinator is too long, the steps visit what the hops lead to. */
  lemma {:induction false} HopsMatch(node: Json)
    requires node.JObject? && Unstopped(Steps(node))
    ensures Match(node, Hops(node), Steps(node))
  {
    hide SchemaKeys, SchemaListKeys, SchemaMapKeys, Match, Overlong;
    StepsUnstopped(node);
    forall key | key in SINGLE_KEYWORDS
      ensures key in SchemaKeys()
    {
      TablesAre(key);
    }
    SingleMatch(node, SINGLE_KEYWORDS);
    ArrayMatch(node, 0);
    MapMatch(node, 0);
    MatchConcat(node, SingleHops(node, SINGLE_KEYWORDS), SingleSteps(node, SINGLE_KEYWORDS),
                ArrayHops(node, 0), ArraySteps(node, 0));
    MatchConcat(node, SingleHops(node, SINGLE_KEYWORDS) + ArrayHops(node, 0),
                SingleSteps(node, SINGLE_KEYWORDS) + ArraySteps(node, 0), MapHops(node, 0), MapSteps(node, 0));
  }

  // ----- every place fits -----

  ghost predicate AllFit(node: Json, root: bool) {
    forall place :: At(node, place).Some? ==> Fits(At(node, place).value, root && place == [])
  }

  /** A node that fits has as many hops as steps, and they agree. */
  lemma {:induction false} FittingMatch(node: Json, root: bool)
    requires node.JObject? && Fits(node, root)
    ensures Match(node, Hops(node), Steps(node))
  {
    hide LocallyRight, Fits, Match, Hops, Steps;
    FitsIff(node, root);
    ObjectLocallyRight(node, root);
    HopsMatch(node);
  }

  lemma {:induction false} LocalIff(node: Json, root: bool)
    ensures AllRight(node, root) <==> Fits(node, root) && (node.JObject? ==> ChildrenRight(node, Steps(node)))
  {
    hide LocallyRight, Fits, ChildrenRight, Steps;
    FitsIff(node, root);
  }

  lemma {:induction false} RightAt(node: Json, root: bool, place: seq<Hop>)
    requires AllRight(node, root) && At(node, place).Some?
    ensures Fits(At(node, place).value, root && place == [])
    decreases |place|
  {
    hide Fits, Hops, Steps, Goes, AllRight;
    LocalIff(node, root);
    if place == [] {
      AtRoot(node);
    } else {
      GoesFromObject(node, place[0]);
      HopsAre(node);
      FittingMatch(node, root);
      var i :| 0 <= i < |Hops(node)| && Hops(node)[i] == place[0];
      assert Steps(node)[i].Visit?;
      RightAt(Steps(node)[i].child, false, place[1..]);
    }
  }

  lemma {:induction false} GoesFromObject(node: Json, h: Hop)
    requires Goes(node, h).Some?
    ensures node.JObject?
  {
  }

  /** A schema and all below it pass their local tests exactly when every place fits. */
  lemma {:induction false} AllRightIff(node: Json, root: bool)
    ensures AllRight(node, root) <==> AllFit(node, root)
    decreases node
  {
    hide Fits, Hops, Steps, Goes, AllRight, At;
    if AllRight(node, root) {
      forall place | At(node, place).Some?
        ensures Fits(At(node, place).value, root && place == [])
      {
        RightAt(node, root, place);
      }
    } else if AllFit(node, root) {
      AtRoot(node);
      LocalIff(node, root);
      FittingMatch(node, root);
      forall i | 0 <= i < |Steps(node)| && Steps(node)[i].Visit?
        ensures AllRight(Steps(node)[i].child, false)
      {
        FitBelow(node, root, Hops(node)[i], Steps(node)[i].child);
        AllRightIff(Steps(node)[i].child, false);
      }
    }
  }

  lemma {:induction false} FitBelow(node: Json, root: bool, h: Hop, child: Json)
    requires AllFit(node, root) && Goes(node, h) == Some(child)
    ensures AllFit(child, false)
  {
    hide Fits, Goes;
    forall place | At(child, place).Some?
      ensures Fits(At(child, place).value, false)
    {
      assert ([h] + place)[1..] == place;
      assert At(node, [h] + place) == At(child, place);
    }
  }

  lemma {:induction false} AtRoot(node: Json)
    ensures At(node, []) == Some(node)
  {
  }

  // ----- the number of places -----

  /** Exactly the places of a node's subschemas. */
  ghost predicate Places(node: Json, places: set<seq<Hop>>) {
    forall place :: place in places <==> At(node, place).Some?
  }

  /** The places that start with one of the hops. */
  ghost predicate PlacesAlong(node: Json, hops: seq<Hop>, places: set<seq<Hop>>) {
    forall place :: place in places <==> place != [] && place[0] in hops && At(node, place).Some?
  }

  ghost function Under(h: Hop, places: set<seq<Hop>>): set<seq<Hop>> {
    set place | place in places :: [h] + place
  }

  lemma {:induction false} UnderSize(h: Hop, places: set<seq<Hop>>)
    ensures |Under(h, places)| == |places|
  {
    if places != {} {
      var p :| p in places;
      UnderSize(h, places - {p});
      assert Under(h, places) == Under(h, places - {p}) + {[h] + p};
      forall q | q in places - {p}
        ensures [h] + q != [h] + p
      {
        assert ([h] + q)[1..] == q && ([h] + p)[1..] == p;
      }
    }
  }

  /** The places of a node are finitely many, and as many as check counts when all is right. */
  lemma {:induction false} PlacesOf(node: Json) returns (places: set<seq<Hop>>)
    ensures Places(node, places)
    ensures forall root :: AllRight(node, root) ==> |places| == Count(node)
    decreases node, 1
  {
    hide Fits, Hops, Steps, Goes, AllRight;
    AtRoot(node);
    if node.JObject? {
      HopsAre(node);
      var rest := PlacesOfHops(node, Hops(node), Steps(node));
      places := {[]} + rest;
      forall root | AllRight(node, root)
        ensures |places| == Count(node)
      {
        LocalIff(node, root);
        FittingMatch(node, root);
      }
    } else {
      places := {[]};
      forall place | At(node, place).Some?
        ensures place == []
      {
        if place != [] {
          GoesFromObject(node, place[0]);
        }
      }
    }
  }

  lemma {:induction false} PlacesOfHops(node: Json, hops: seq<Hop>, steps: seq<Step>) returns (places: set<seq<Hop>>)
    requires Apart(hops) && Below(node, steps) && forall h :: h in hops ==> Goes(node, h).Some?
    ensures PlacesAlong(node, hops, places)
    ensures Match(node, hops, steps) && ChildrenRight(node, steps) ==> |places| == CountSteps(node, steps)
    decreases node, 0, |hops|
  {
    hide Goes, At, Match, Apart, PlacesAlong, ChildrenRight, Count, AllRight, Under;
    ApartTail(hops);
    if hops == [] {
      places := {};
      NoPlacesAlong(node);
    } else {
      assert hops[0] in hops;
      var child := Goes(node, hops[0]).value;
      GoesBelow(node, hops[0]);
      var first := PlacesOf(child);
      var tail := if steps == [] then [] else steps[1..];
      var rest := PlacesOfHops(node, hops[1..], tail);
      places := Under(hops[0], first) + rest;
      UnderSize(hops[0], first);
      AlongFirst(node, hops, first, rest);
      if Match(node, hops, steps) && ChildrenRight(node, steps) {
        MatchFirst(node, hops, steps);
        FirstChildRight(node, steps);
      }
    }
    EmptyMatch(node, hops, steps);
  }

  lemma {:induction false} NoPlacesAlong(node: Json)
    ensures PlacesAlong(node, [], {})
  {
  }

  lemma {:induction false} EmptyMatch(node: Json, hops: seq<Hop>, steps: seq<Step>)
    ensures hops == [] && Match(node, hops, steps) ==> steps == []
  {
  }

  lemma {:induction false} ApartTail(hops: seq<Hop>)
    requires Apart(hops)
    ensures hops != [] ==> Apart(hops[1..]) && hops[0] !in hops[1..]
  {
  }

  lemma {:induction false} MatchFirst(node: Json, hops: seq<Hop>, steps: seq<Step>)
    requires Match(node, hops, steps) && hops != []
    ensures steps != [] && steps[0].Visit? && Goes(node, hops[0]) == Some(steps[0].child)
    ensures Match(node, hops[1..], steps[1..])
  {
  }

  lemma {:induction false} GoesBelow(node: Json, h: Hop)
    requires Goes(node, h).Some?
    ensures Goes(node, h).value < node
  {
  }

  lemma {:induction false} AlongFirst(node: Json, hops: seq<Hop>, first: set<seq<Hop>>, rest: set<seq<Hop>>)
    requires hops != [] && Goes(node, hops[0]).Some? && Places(Goes(node, hops[0]).value, first)
    requires PlacesAlong(node, hops[1..], rest) && hops[0] !in hops[1..]
    ensures PlacesAlong(node, hops, Under(hops[0], first) + rest) && Under(hops[0], first) !! rest
  {
    hide Goes;
    var h, places := hops[0], Under(hops[0], first) + rest;
    forall place
      ensures place in places <==> place != [] && place[0] in hops && At(node, place).Some?
    {
      if place != [] && place[0] == h {
        assert place == [h] + place[1..];
        assert At(node, place) == At(Goes(node, h).value, place[1..]);
      }
      if place in Under(h, first) {
        var p :| p in first && place == [h] + p;
        assert place[1..] == p;
      }
      assert place != [] ==> (place[0] in hops <==> place[0] == h || place[0] in hops[1..]);
    }
  }

  // ----- acceptance -----

  /** A schema is accepted exactly when it has at most 4096 places and each of them fits,
      whatever the order of the visits. */
  lemma {:induction false} AcceptedByPlaces(schema: Json, places: set<seq<Hop>>)
    requires Places(schema, places)
    ensures Check(schema, true, 0).code.None? <==>
      |places| <= 4096 && forall place :: place in places ==> Fits(At(schema, place).value, place == [])
  {
    hide Fits, Check, AllRight, At;
    SchemaAcceptedIff(schema);
    AllRightIff(schema, true);
    var counted := PlacesOf(schema);
    assert counted == places;
  }
}
