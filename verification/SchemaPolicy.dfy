// The closed schema profile of the output contract
// (agent-platform/outputcontract/validate.go, schemaPolicy.check and its tables).
module SchemaPolicy {
  import opened Collections
  import opened Utf8
  import opened KeyOrder
  import opened CanonicalJson

  const DIALECT := "https://json-schema.org/draft/2020-12/schema"
  const MAX_SCHEMA_NODES := 4096
  const MAX_COMBINATORS := 32

  datatype Code =
    | Dialect | NodeLimit | CombinatorLimit | ForbiddenKeyword | UnknownKeyword | ExternalReference | Compile

  const ALLOWED_KEYWORDS: set<string> :=
    {"$anchor", "$comment", "$defs", "$ref", "$schema", "additionalProperties", "allOf", "anyOf", "const"}
    + {"contains", "default", "dependentRequired", "dependentSchemas", "deprecated", "description", "else", "enum"}
    + {"examples", "exclusiveMaximum", "exclusiveMinimum", "if", "items", "maxContains", "maxItems", "maxLength"}
    + {"maxProperties", "maximum", "minContains", "minItems", "minLength", "minProperties", "minimum", "multipleOf"}
    + {"not", "oneOf", "pattern", "patternProperties", "prefixItems", "properties", "propertyNames", "readOnly"}
    + {"required", "then", "title", "type", "unevaluatedItems", "unevaluatedProperties", "uniqueItems", "writeOnly"}

  const SINGLE_KEYWORDS: seq<string> := [
    "additionalProperties", "contains", "else", "if", "items", "not",
    "propertyNames", "then", "unevaluatedItems", "unevaluatedProperties"]

  const ARRAY_KEYWORDS: seq<string> := ["allOf", "anyOf", "oneOf", "prefixItems"]

  const MAP_KEYWORDS: seq<string> := ["$defs", "dependentSchemas", "patternProperties", "properties"]

  predicate Forbidden(key: string) {
    key in {"$id", "$dynamicRef", "$dynamicAnchor", "$vocabulary", "format"} || "content" <= key
  }

  predicate Combinator(key: string) {
    key == "allOf" || key == "anyOf" || key == "oneOf"
  }

  // ----- one object's keys -----

  /** What is wrong with one key of a schema object, if anything. */
  function KeyFault(members: map<string, Json>, key: string): Option<Code> {
    if Forbidden(key) then Some(ForbiddenKeyword)
    else if key !in ALLOWED_KEYWORDS then Some(UnknownKeyword)
    else if key == "$ref" && key in members && members[key].JString? && !("#" <= members[key].s)
    then Some(ExternalReference)
    else None
  }

  function FirstFault(members: map<string, Json>, keys: seq<string>): Option<Code> {
    if keys == [] then None
    else if KeyFault(members, keys[0]).Some? then KeyFault(members, keys[0])
    else FirstFault(members, keys[1..])
  }

  /** The dialect rule: required at the root, absent below. */
  predicate DialectRight(members: map<string, Json>, root: bool) {
    if root then "$schema" in members && members["$schema"] == JString(DIALECT) else "$schema" !in members
  }

  // ----- the order of visits -----

  /** A subschema to visit, or the point where a combinator is too long. */
  datatype Step = Visit(child: Json) | TooMany

  function SingleSteps(node: Json, keys: seq<string>): (steps: seq<Step>)
    requires node.JObject?
    ensures Below(node, steps)
  {
    if keys == [] then [] else SingleStepsOf(node, keys[0]) + SingleSteps(node, keys[1..])
  }

  function SingleStepsOf(node: Json, key: string): (steps: seq<Step>)
    requires node.JObject?
    ensures Below(node, steps)
  {
    if key in node.members then [Visit(node.members[key])] else []
  }

  /** Every step visits a part of the node. */
  ghost predicate Below(node: Json, steps: seq<Step>) {
    forall i :: 0 <= i < |steps| && steps[i].Visit? ==> steps[i].child < node
  }

  function Visits(children: seq<Json>): (steps: seq<Step>)
    ensures |steps| == |children| && forall i :: 0 <= i < |steps| ==> steps[i] == Visit(children[i])
  {
    seq(|children|, i requires 0 <= i < |children| => Visit(children[i]))
  }

  function ArrayStepsOf(node: Json, key: string): (steps: seq<Step>)
    requires node.JObject?
    ensures Below(node, steps)
  {
    if key !in node.members || !node.members[key].JArray? then []
    else if Combinator(key) && |node.members[key].items| > MAX_COMBINATORS then [TooMany]
    else Visits(node.members[key].items)
  }

  function ArraySteps(node: Json, i: nat): (steps: seq<Step>)
    requires node.JObject? && i <= |ARRAY_KEYWORDS|
    ensures Below(node, steps)
    decreases |ARRAY_KEYWORDS| - i
  {
    if i == |ARRAY_KEYWORDS| then [] else ArrayStepsOf(node, ARRAY_KEYWORDS[i]) + ArraySteps(node, i + 1)
  }

  /** The values under the given names, in their order. */
  ghost function Named(node: Json, key: string, names: seq<string>): (steps: seq<Step>)
    requires node.JObject? && key in node.members && node.members[key].JObject?
    requires Elements(names) <= node.members[key].members.Keys
    ensures Below(node, steps) && |steps| == |names|
  {
    if names == [] then []
    else
      assert names[0] in Elements(names);
      [Visit(node.members[key].members[names[0]])] + Named(node, key, names[1..])
  }

  ghost function MapStepsOf(node: Json, key: string): (steps: seq<Step>)
    requires node.JObject?
    ensures Below(node, steps)
  {
    if key !in node.members || !node.members[key].JObject? then []
    else Named(node, key, SortedKeys(node.members[key].members.Keys))
  }

  ghost function MapSteps(node: Json, i: nat): (steps: seq<Step>)
    requires node.JObject? && i <= |MAP_KEYWORDS|
    ensures Below(node, steps)
    decreases |MAP_KEYWORDS| - i
  {
    if i == |MAP_KEYWORDS| then [] else MapStepsOf(node, MAP_KEYWORDS[i]) + MapSteps(node, i + 1)
  }

  ghost function Steps(node: Json): (steps: seq<Step>)
    requires node.JObject?
    ensures Below(node, steps)
  {
    BelowConcat(node, SingleSteps(node, SINGLE_KEYWORDS), ArraySteps(node, 0));
    BelowConcat(node, SingleSteps(node, SINGLE_KEYWORDS) + ArraySteps(node, 0), MapSteps(node, 0));
    SingleSteps(node, SINGLE_KEYWORDS) + ArraySteps(node, 0) + MapSteps(node, 0)
  }

  lemma {:induction false} BelowConcat(node: Json, a: seq<Step>, b: seq<Step>)
    requires Below(node, a) && Below(node, b)
    ensures Below(node, a + b)
  {
  }

  // ----- what check computes -----

  datatype Verdict = Verdict(code: Option<Code>, nodes: nat)

  ghost function Check(node: Json, root: bool, nodes: nat): Verdict
    decreases node, 1
  {
    if nodes + 1 > MAX_SCHEMA_NODES then Verdict(Some(NodeLimit), nodes + 1)
    else if node.JBool? then Verdict(if root then Some(Dialect) else None, nodes + 1)
    else if !node.JObject? then Verdict(Some(Compile), nodes + 1)
    else if !DialectRight(node.members, root) then Verdict(Some(Dialect), nodes + 1)
    else
      var fault := FirstFault(node.members, SortedKeys(node.members.Keys));
      if fault.Some? then Verdict(fault, nodes + 1) else Follow(node, Steps(node), nodes + 1)
  }

  ghost function Follow(node: Json, steps: seq<Step>, nodes: nat): Verdict
    requires Below(node, steps)
    decreases node, 0, |steps|
  {
    if steps == [] then Verdict(None, nodes)
    else if steps[0].TooMany? then Verdict(Some(CombinatorLimit), nodes)
    else
      var first := Check(steps[0].child, false, nodes);
      if first.code.Some? then first else Follow(node, steps[1..], first.nodes)
  }

  // ----- what check accepts, said without order or counter -----

  /** The number of subschemas the keyword tables reach, the node included. */
  ghost function Count(node: Json): nat
    decreases node, 1
  {
    if node.JObject? then 1 + CountSteps(node, Steps(node)) else 1
  }

  ghost function CountSteps(node: Json, steps: seq<Step>): nat
    requires Below(node, steps)
    decreases node, 0, |steps|
  {
    if steps == [] then 0
    else (if steps[0].Visit? then Count(steps[0].child) else 0) + CountSteps(node, steps[1..])
  }

  /** The tests that look at one subschema alone. */
  ghost predicate LocallyRight(node: Json, root: bool) {
    if node.JBool? then !root
    else
      && node.JObject? && DialectRight(node.members, root)
      && (forall key :: key in node.members ==> KeyFault(node.members, key).None?)
      && (forall i :: 0 <= i < |ARRAY_KEYWORDS| ==> !Overlong(node, ARRAY_KEYWORDS[i]))
  }

  predicate Overlong(node: Json, key: string)
    requires node.JObject?
  {
    key in node.members && node.members[key].JArray? && Combinator(key)
    && |node.members[key].items| > MAX_COMBINATORS
  }

  /** The node and every subschema below it pass their local tests. */
  ghost predicate AllRight(node: Json, root: bool)
    decreases node, 1
  {
    LocallyRight(node, root) && (node.JObject? ==> ChildrenRight(node, Steps(node)))
  }

  ghost predicate ChildrenRight(node: Json, steps: seq<Step>)
    requires Below(node, steps)
    decreases node, 0
  {
    forall i :: 0 <= i < |steps| && steps[i].Visit? ==> AllRight(steps[i].child, false)
  }

  // ----- the two readings agree -----

  lemma {:induction false} FirstFaultNone(members: map<string, Json>, keys: seq<string>)
    ensures FirstFault(members, keys).None? <==> forall key :: key in keys ==> KeyFault(members, key).None?
  {
    if keys != [] {
      FirstFaultNone(members, keys[1..]);
      assert forall key :: key in keys <==> key == keys[0] || key in keys[1..];
    }
  }

  /** No step of these stops the visit. */
  ghost predicate Unstopped(steps: seq<Step>) {
    forall i :: 0 <= i < |steps| ==> steps[i].Visit?
  }

  lemma {:induction false} UnstoppedConcat(a: seq<Step>, b: seq<Step>)
    ensures Unstopped(a + b) <==> Unstopped(a) && Unstopped(b)
  {
    if Unstopped(a + b) {
      forall i | 0 <= i < |a|
        ensures a[i].Visit?
      {
        assert (a + b)[i].Visit?;
      }
      forall i | 0 <= i < |b|
        ensures b[i].Visit?
      {
        assert (a + b)[|a| + i].Visit?;
      }
    }
  }

  lemma {:induction false} SinglesUnstopped(node: Json, keys: seq<string>)
    requires node.JObject?
    ensures Unstopped(SingleSteps(node, keys))
  {
    if keys != [] {
      SinglesUnstopped(node, keys[1..]);
    }
  }

  lemma {:induction false} ArrayUnstopped(node: Json, key: string)
    requires node.JObject?
    ensures Unstopped(ArrayStepsOf(node, key)) <==> !Overlong(node, key)
  {
    if Overlong(node, key) {
      assert !ArrayStepsOf(node, key)[0].Visit?;
    }
  }

  lemma {:induction false} ArraysUnstopped(node: Json, i: nat)
    requires node.JObject? && i <= |ARRAY_KEYWORDS|
    ensures Unstopped(ArraySteps(node, i))
      <==> forall j :: i <= j < |ARRAY_KEYWORDS| ==> !Overlong(node, ARRAY_KEYWORDS[j])
    decreases |ARRAY_KEYWORDS| - i
  {
    if i < |ARRAY_KEYWORDS| {
      ArraysUnstopped(node, i + 1);
      ArrayUnstopped(node, ARRAY_KEYWORDS[i]);
      UnstoppedConcat(ArrayStepsOf(node, ARRAY_KEYWORDS[i]), ArraySteps(node, i + 1));
    }
  }

  lemma {:induction false} NamedUnstopped(node: Json, key: string, names: seq<string>)
    requires node.JObject? && key in node.members && node.members[key].JObject?
    requires Elements(names) <= node.members[key].members.Keys
    ensures Unstopped(Named(node, key, names))
  {
    if names != [] {
      NamedUnstopped(node, key, names[1..]);
    }
  }

  lemma {:induction false} MapsUnstopped(node: Json, i: nat)
    requires node.JObject? && i <= |MAP_KEYWORDS|
    ensures Unstopped(MapSteps(node, i))
    decreases |MAP_KEYWORDS| - i
  {
    if i < |MAP_KEYWORDS| {
      MapsUnstopped(node, i + 1);
      var key := MAP_KEYWORDS[i];
      if key in node.members && node.members[key].JObject? {
        NamedUnstopped(node, key, SortedKeys(node.members[key].members.Keys));
      }
      UnstoppedConcat(MapStepsOf(node, key), MapSteps(node, i + 1));
    }
  }

  lemma {:induction false} StepsUnstopped(node: Json)
    requires node.JObject?
    ensures Unstopped(Steps(node)) <==> forall j :: 0 <= j < |ARRAY_KEYWORDS| ==> !Overlong(node, ARRAY_KEYWORDS[j])
  {
    SinglesUnstopped(node, SINGLE_KEYWORDS);
    ArraysUnstopped(node, 0);
    MapsUnstopped(node, 0);
    UnstoppedConcat(SingleSteps(node, SINGLE_KEYWORDS), ArraySteps(node, 0));
    UnstoppedConcat(SingleSteps(node, SINGLE_KEYWORDS) + ArraySteps(node, 0), MapSteps(node, 0));
  }

  lemma {:induction false} ObjectLocallyRight(node: Json, root: bool)
    requires node.JObject?
    ensures LocallyRight(node, root)
       <==> DialectRight(node.members, root) && FirstFault(node.members, SortedKeys(node.members.Keys)).None?
            && Unstopped(Steps(node))
  {
    var keys := SortedKeys(node.members.Keys);
    FirstFaultNone(node.members, keys);
    assert forall key :: key in node.members <==> key in Elements(keys);
    StepsUnstopped(node);
  }

  /** The verdict, read without the counter's history. */
  ghost predicate Exact(node: Json, root: bool, nodes: nat, v: Verdict) {
    && (v.code.None? <==> nodes + Count(node) <= MAX_SCHEMA_NODES && AllRight(node, root))
    && (v.code.None? ==> v.nodes == nodes + Count(node))
  }

  ghost predicate ExactSteps(node: Json, steps: seq<Step>, nodes: nat, v: Verdict)
    requires Below(node, steps)
  {
    && (v.code.None? <==> nodes + CountSteps(node, steps) <= MAX_SCHEMA_NODES && Unstopped(steps)
                          && ChildrenRight(node, steps))
    && (v.code.None? ==> v.nodes == nodes + CountSteps(node, steps))
  }

  /** check accepts a node exactly when its subschemas fit the rest of the counter
      and all of them pass their local tests. */
  lemma {:induction false} CheckIff(node: Json, root: bool, nodes: nat)
    requires nodes <= MAX_SCHEMA_NODES
    ensures Exact(node, root, nodes, Check(node, root, nodes))
    decreases node, 1
  {
    if !node.JObject? {
      LeafCheckIff(node, root, nodes);
    } else if nodes == MAX_SCHEMA_NODES {
      FullCheckIff(node, root);
    } else {
      ObjectCheckIff(node, root, nodes);
    }
  }

  lemma {:induction false} FullCheckIff(node: Json, root: bool)
    ensures Exact(node, root, MAX_SCHEMA_NODES, Check(node, root, MAX_SCHEMA_NODES))
  {
    assert Count(node) >= 1;
  }

  lemma {:induction false} LeafCheckIff(node: Json, root: bool, nodes: nat)
    requires !node.JObject? && nodes <= MAX_SCHEMA_NODES
    ensures Exact(node, root, nodes, Check(node, root, nodes))
  {
  }

  /** What check says about an object, in terms of its local tests and its steps. */
  lemma {:induction false} ObjectCheckIff(node: Json, root: bool, nodes: nat)
    requires node.JObject? && nodes + 1 <= MAX_SCHEMA_NODES
    ensures Exact(node, root, nodes, Check(node, root, nodes))
    decreases node, 0, |Steps(node)| + 1
  {
    hide Check, Follow, LocallyRight, KeyFault, ChildrenRight, AllRight, Count, CountSteps, Unstopped, Headed;
    ObjectVerdict(node, root, nodes);
    ObjectAllRight(node, root);
    if Headed(node, root) {
      FollowIff(node, Steps(node), nodes + 1);
    }
  }

  /** The verdict on an object is that of its own tests, or else that of its steps. */
  lemma {:induction false} ObjectVerdict(node: Json, root: bool, nodes: nat)
    requires node.JObject? && nodes + 1 <= MAX_SCHEMA_NODES
    ensures Headed(node, root) ==> Check(node, root, nodes) == Follow(node, Steps(node), nodes + 1)
    ensures !Headed(node, root) ==> Check(node, root, nodes).code.Some?
    ensures Count(node) == 1 + CountSteps(node, Steps(node))
  {
  }

  lemma {:induction false} ObjectAllRight(node: Json, root: bool)
    requires node.JObject?
    ensures AllRight(node, root)
       <==> Headed(node, root) && Unstopped(Steps(node)) && ChildrenRight(node, Steps(node))
  {
    ObjectLocallyRight(node, root);
  }

  ghost predicate Headed(node: Json, root: bool)
    requires node.JObject?
  {
    DialectRight(node.members, root) && FirstFault(node.members, SortedKeys(node.members.Keys)).None?
  }

  lemma {:induction false} FollowIff(node: Json, steps: seq<Step>, nodes: nat)
    requires Below(node, steps) && nodes <= MAX_SCHEMA_NODES
    ensures ExactSteps(node, steps, nodes, Follow(node, steps, nodes))
    decreases node, 0, |steps|
  {
    if steps != [] {
      UnstoppedConcat([steps[0]], steps[1..]);
      assert steps == [steps[0]] + steps[1..];
      if steps[0].Visit? {
        var first := Check(steps[0].child, false, nodes);
        CheckIff(steps[0].child, false, nodes);
        if first.code.None? {
          FollowIff(node, steps[1..], first.nodes);
        }
        FirstChildRight(node, steps);
      } else {
        assert !Unstopped(steps);
      }
    }
  }

  lemma {:induction false} FirstChildRight(node: Json, steps: seq<Step>)
    requires Below(node, steps) && steps != [] && steps[0].Visit?
    ensures Below(node, steps[1..])
    ensures ChildrenRight(node, steps) <==> AllRight(steps[0].child, false) && ChildrenRight(node, steps[1..])
  {
    if AllRight(steps[0].child, false) && ChildrenRight(node, steps[1..]) {
      forall i | 0 <= i < |steps| && steps[i].Visit?
        ensures AllRight(steps[i].child, false)
      {
        if i > 0 {
          assert steps[i] == steps[1..][i - 1];
        }
      }
    }
    if ChildrenRight(node, steps) {
      forall i | 0 <= i < |steps[1..]| && steps[1..][i].Visit?
        ensures AllRight(steps[1..][i].child, false)
      {
        assert steps[1..][i] == steps[i + 1];
      }
    }
  }

  /** A whole schema is accepted exactly when it has at most 4096 subschemas, the
      dialect at its root and nowhere else, and only sound subschemas. */
  lemma {:induction false} SchemaAcceptedIff(schema: Json)
    ensures Check(schema, true, 0).code.None? <==> Count(schema) <= MAX_SCHEMA_NODES && AllRight(schema, true)
  {
    CheckIff(schema, true, 0);
  }

  /** The fault reported for an object is that of its least faulty key: it does not
      depend on the order in which the map lists them. */
  lemma {:induction false} FaultOfLeastKey(members: map<string, Json>, code: Code)
    ensures FirstFault(members, SortedKeys(members.Keys)) == Some(code)
       <==> exists key :: key in members && KeyFault(members, key) == Some(code)
                          && forall k :: k in members && KeyFault(members, k).Some? ==> k == key || Before(key, k)
  {
    var keys := SortedKeys(members.Keys);
    assert forall key :: key in members <==> key in Elements(keys);
    FirstFaultNone(members, keys);
    if FirstFault(members, keys).Some? {
      var i := FaultPosition(members, keys);
      forall k | k in members && KeyFault(members, k).Some?
        ensures k == keys[i] || Before(keys[i], k)
      {
        assert k in Elements(keys);
        var j :| 0 <= j < |keys| && keys[j] == k;
      }
      assert keys[i] in Elements(keys);
      forall key | key in members && KeyFault(members, key) == Some(code)
                   && forall k :: k in members && KeyFault(members, k).Some? ==> k == key || Before(key, k)
        ensures key == keys[i]
      {
        BeforeIsOrder(key, keys[i], key);
      }
    }
  }

  lemma {:induction false} FaultPosition(members: map<string, Json>, keys: seq<string>) returns (i: nat)
    requires FirstFault(members, keys).Some?
    ensures i < |keys| && FirstFault(members, keys) == KeyFault(members, keys[i])
    ensures forall j :: 0 <= j < i ==> KeyFault(members, keys[j]).None?
  {
    hide KeyFault;
    if KeyFault(members, keys[0]).Some? {
      i := 0;
    } else {
      var k := FaultPosition(members, keys[1..]);
      i := k + 1;
    }
  }

  // ----- the checker with its counter -----

  /** Following steps one part after the other. */
  lemma {:induction false} FollowConcat(node: Json, a: seq<Step>, b: seq<Step>, nodes: nat)
    requires Below(node, a) && Below(node, b)
    ensures Below(node, a + b)
    ensures var v := Follow(node, a, nodes);
      Follow(node, a + b, nodes) == if v.code.Some? then v else Follow(node, b, v.nodes)
    decreases |a|
  {
    hide Check;
    if a == [] {
      assert a + b == b;
    } else {
      assert (a + b)[1..] == a[1..] + b;
      if a[0].Visit? {
        var first := Check(a[0].child, false, nodes);
        FollowConcat(node, a[1..], b, first.nodes);
      }
    }
  }

  lemma {:induction false} FollowOne(node: Json, child: Json, nodes: nat)
    requires child < node
    ensures Below(node, [Visit(child)]) && Follow(node, [Visit(child)], nodes) == Check(child, false, nodes)
  {
    var v := Check(child, false, nodes);
    assert Follow(node, [], v.nodes) == Verdict(None, v.nodes);
    assert [Visit(child)][1..] == [];
  }

  lemma {:induction false} FollowArray(node: Json, i: nat, nodes: nat, v: Verdict)
    requires node.JObject? && i < |ARRAY_KEYWORDS| && v == Follow(node, ArrayStepsOf(node, ARRAY_KEYWORDS[i]), nodes)
    ensures Follow(node, ArraySteps(node, i), nodes)
         == if v.code.Some? then v else Follow(node, ArraySteps(node, i + 1), v.nodes)
  {
    FollowConcat(node, ArrayStepsOf(node, ARRAY_KEYWORDS[i]), ArraySteps(node, i + 1), nodes);
  }

  lemma {:induction false} FollowMap(node: Json, i: nat, nodes: nat, v: Verdict)
    requires node.JObject? && i < |MAP_KEYWORDS| && v == Follow(node, MapStepsOf(node, MAP_KEYWORDS[i]), nodes)
    ensures Follow(node, MapSteps(node, i), nodes)
         == if v.code.Some? then v else Follow(node, MapSteps(node, i + 1), v.nodes)
  {
    FollowConcat(node, MapStepsOf(node, MAP_KEYWORDS[i]), MapSteps(node, i + 1), nodes);
  }

  class Policy {
    var nodes: nat

    constructor ()
      ensures nodes == 0
    {
      nodes := 0;
    }

    method CheckNode(node: Json, root: bool) returns (code: Option<Code>)
      modifies this
      ensures Check(node, root, old(nodes)) == Verdict(code, nodes)
      decreases node, 1
    {
      nodes := nodes + 1;
      ghost var counted := nodes;
      if nodes > MAX_SCHEMA_NODES {
        return Some(NodeLimit);
      }
      if node.JBool? {
        return if root then Some(Dialect) else None;
      }
      if !node.JObject? {
        return Some(Compile);
      }
      if !DialectRight(node.members, root) {
        return Some(Dialect);
      }
      code := CheckKeys(node.members);
      assert code == FirstFault(node.members, SortedKeys(node.members.Keys));
      if code.Some? {
        assert Check(node, root, counted - 1) == Verdict(code, counted);
        return;
      }
      assert Check(node, root, counted - 1) == Follow(node, Steps(node), counted);
      code := CheckChildren(node);
    }

    method CheckChildren(node: Json) returns (code: Option<Code>)
      requires node.JObject?
      modifies this
      ensures Follow(node, Steps(node), old(nodes)) == Verdict(code, nodes)
      decreases node, 0, 3
    {
      FollowConcat(node, SingleSteps(node, SINGLE_KEYWORDS) + ArraySteps(node, 0), MapSteps(node, 0), nodes);
      FollowConcat(node, SingleSteps(node, SINGLE_KEYWORDS), ArraySteps(node, 0), nodes);
      code := VisitSingles(node, SINGLE_KEYWORDS);
      if code.Some? {
        return;
      }
      code := VisitArrays(node);
      if code.Some? {
        return;
      }
      code := VisitMaps(node);
    }

    method VisitSingles(node: Json, keys: seq<string>) returns (code: Option<Code>)
      requires node.JObject?
      modifies this
      ensures Follow(node, SingleSteps(node, keys), old(nodes)) == Verdict(code, nodes)
      decreases node, 0, 2
    {
      var i := 0;
      assert keys[0..] == keys;
      while i < |keys|
        invariant 0 <= i <= |keys|
        invariant Follow(node, SingleSteps(node, keys), old(nodes)) == Follow(node, SingleSteps(node, keys[i..]), nodes)
      {
        assert keys[i..][1..] == keys[i + 1..];
        FollowConcat(node, SingleStepsOf(node, keys[i]), SingleSteps(node, keys[i + 1..]), nodes);
        code := VisitSingle(node, keys[i]);
        if code.Some? {
          return;
        }
        i := i + 1;
      }
      code := None;
    }

    method VisitSingle(node: Json, key: string) returns (code: Option<Code>)
      requires node.JObject?
      modifies this
      ensures Follow(node, SingleStepsOf(node, key), old(nodes)) == Verdict(code, nodes)
      decreases node, 0, 1
    {
      if key !in node.members {
        return None;
      }
      FollowOne(node, node.members[key], nodes);
      code := CheckNode(node.members[key], false);
    }

    method VisitArrays(node: Json) returns (code: Option<Code>)
      requires node.JObject?
      modifies this
      ensures Follow(node, ArraySteps(node, 0), old(nodes)) == Verdict(code, nodes)
      decreases node, 0, 2
    {
      var i := 0;
      while i < |ARRAY_KEYWORDS|
        invariant 0 <= i <= |ARRAY_KEYWORDS|
        invariant Follow(node, ArraySteps(node, 0), old(nodes)) == Follow(node, ArraySteps(node, i), nodes)
      {
        ghost var before := nodes;
        code := VisitArray(node, ARRAY_KEYWORDS[i]);
        FollowArray(node, i, before, Verdict(code, nodes));
        if code.Some? {
          return;
        }
        i := i + 1;
      }
      assert ArraySteps(node, i) == [];
      code := None;
    }

    method VisitArray(node: Json, key: string) returns (code: Option<Code>)
      requires node.JObject?
      modifies this
      ensures Follow(node, ArrayStepsOf(node, key), old(nodes)) == Verdict(code, nodes)
      decreases node, 0, 1
    {
      if key !in node.members || !node.members[key].JArray? {
        return None;
      }
      var children := node.members[key].items;
      if Combinator(key) && |children| > MAX_COMBINATORS {
        return Some(CombinatorLimit);
      }
      var i := 0;
      while i < |children|
        invariant 0 <= i <= |children| && Below(node, Visits(children[i..]))
        invariant Follow(node, Visits(children), old(nodes)) == Follow(node, Visits(children[i..]), nodes)
      {
        assert Visits(children[i..]) == [Visit(children[i])] + Visits(children[i + 1..]);
        FollowOne(node, children[i], nodes);
        FollowConcat(node, [Visit(children[i])], Visits(children[i + 1..]), nodes);
        code := CheckNode(children[i], false);
        if code.Some? {
          return;
        }
        i := i + 1;
      }
      code := None;
    }

    method VisitMaps(node: Json) returns (code: Option<Code>)
      requires node.JObject?
      modifies this
      ensures Follow(node, MapSteps(node, 0), old(nodes)) == Verdict(code, nodes)
      decreases node, 0, 2
    {
      var i := 0;
      while i < |MAP_KEYWORDS|
        invariant 0 <= i <= |MAP_KEYWORDS|
        invariant Follow(node, MapSteps(node, 0), old(nodes)) == Follow(node, MapSteps(node, i), nodes)
      {
        ghost var before := nodes;
        code := VisitMap(node, MAP_KEYWORDS[i]);
        FollowMap(node, i, before, Verdict(code, nodes));
        if code.Some? {
          return;
        }
        i := i + 1;
      }
      assert MapSteps(node, i) == [];
      code := None;
    }

    method VisitMap(node: Json, key: string) returns (code: Option<Code>)
      requires node.JObject?
      modifies this
      ensures Follow(node, MapStepsOf(node, key), old(nodes)) == Verdict(code, nodes)
      decreases node, 0, 1
    {
      if key !in node.members || !node.members[key].JObject? {
        return None;
      }
      var children := node.members[key].members;
      var names := SortStrings(children.Keys);
      var i := 0;
      assert names[0..] == names;
      while i < |names|
        invariant 0 <= i <= |names| && Elements(names[i..]) <= children.Keys
        invariant Follow(node, Named(node, key, names), old(nodes)) == Follow(node, Named(node, key, names[i..]), nodes)
      {
        assert names[i] in Elements(names[i..]) && names[i..][1..] == names[i + 1..];
        var child := children[names[i]];
        FollowOne(node, child, nodes);
        FollowConcat(node, [Visit(child)], Named(node, key, names[i + 1..]), nodes);
        code := CheckNode(child, false);
        if code.Some? {
          return;
        }
        i := i + 1;
      }
      code := None;
    }
  }

  /** The key loop: sorted keys, first fault. */
  method CheckKeys(members: map<string, Json>) returns (code: Option<Code>)
    ensures code == FirstFault(members, SortedKeys(members.Keys))
  {
    var keys := SortStrings(members.Keys);
    var i := 0;
    while i < |keys|
      invariant 0 <= i <= |keys| && FirstFault(members, keys) == FirstFault(members, keys[i..])
    {
      var fault := KeyFault(members, keys[i]);
      if fault.Some? {
        return fault;
      }
      assert keys[i..][1..] == keys[i + 1..];
      i := i + 1;
    }
    code := None;
  }
}
