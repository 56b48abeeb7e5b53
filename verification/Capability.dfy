// Tool ownership (agent-platform/capability/roles.go).
module Capability {
  import opened Collections

  datatype Role = Role(id: string, revision: nat, categories: seq<string>, outputContract: string, maxToolCalls: nat)
  datatype Tool = Tool(id: string, revision: nat, category: string, effect: string, active: bool)

  /** The Specialist roles. Purpose, handoff target and effect carry no decision here. */
  const AGENT_ROLES: seq<Role> := [
    Role("market_scout", 1, ["market"], "specialist_memo_v1", 1),
    Role("fundamental_scout", 1, ["fundamentals"], "specialist_memo_v1", 1),
    Role("options_scout", 1, ["options", "market_options"], "specialist_memo_v1", 1),
    Role("position_manager", 1, ["portfolio"], "specialist_memo_v1", 1),
    Role("catalyst_scout", 1, ["catalyst"], "specialist_memo_v1", 1),
    Role("discovery_scout", 1, ["discovery", "web"], "specialist_memo_v1", 1)
  ]

  /** The installed tools. The table itself is a parameter: nothing below depends
      on which tools are listed. */
  datatype Catalog = Catalog(tools: seq<Tool>)

  function FindRole(roles: seq<Role>, id: string): Option<Role> {
    if roles == [] then None else if roles[0].id == id then Some(roles[0]) else FindRole(roles[1..], id)
  }

  function LookupAgentRole(id: string): Option<Role> {
    FindRole(AGENT_ROLES, id)
  }

  function FindTool(tools: seq<Tool>, id: string): (r: Option<Tool>)
    ensures r.Some? ==> r.value.id == id && r.value in tools
  {
    if tools == [] then None else if tools[0].id == id then Some(tools[0]) else FindTool(tools[1..], id)
  }

  function LookupTool(catalog: Catalog, id: string): Option<Tool> {
    FindTool(catalog.tools, id)
  }

  /** The roles, in table order, that list a category. */
  function Listing(roles: seq<Role>, category: string): seq<string> {
    if roles == [] then []
    else (if category in roles[0].categories then [roles[0].id] else []) + Listing(roles[1..], category)
  }

  function AgentRolesForTool(catalog: Catalog, toolId: string): seq<string> {
    match LookupTool(catalog, toolId)
    case None => []
    case Some(tool) => Listing(AGENT_ROLES, tool.category)
  }

  method CollectOwners(catalog: Catalog, toolId: string) returns (result: seq<string>)
    ensures result == AgentRolesForTool(catalog, toolId)
  {
    var tool := LookupTool(catalog, toolId);
    if tool.None? {
      result := [];
    } else {
      result := CollectListing(AGENT_ROLES, tool.value.category);
    }
  }

  /** The loop of AgentRolesForTool. */
  method CollectListing(roles: seq<Role>, category: string) returns (result: seq<string>)
    ensures result == Listing(roles, category)
  {
    hide Listing;
    result := [];
    var i := 0;
    assert roles[0..] == roles;
    while i < |roles|
      invariant 0 <= i <= |roles|
      invariant result + Listing(roles[i..], category) == Listing(roles, category)
    {
      var categories, before := roles[i].categories, result;
      var j := 0;
      while j < |categories|
        invariant 0 <= j <= |categories| && result == before
        invariant category !in categories[..j]
      {
        if categories[j] == category {
          result := result + [roles[i].id];
          break;
        }
        j := j + 1;
      }
      assert result == before + if category in categories then [roles[i].id] else [];
      ListingHead(roles[i..], category);
      assert roles[i..][1..] == roles[i + 1..];
      i := i + 1;
    }
    ListingEnd(category);
    assert roles[i..] == [];
  }

  lemma {:induction false} ListingHead(roles: seq<Role>, category: string)
    requires roles != []
    ensures Listing(roles, category)
         == (if category in roles[0].categories then [roles[0].id] else []) + Listing(roles[1..], category)
  {
  }

  lemma {:induction false} ListingEnd(category: string)
    ensures Listing([], category) == []
  {
  }

  predicate Serves(i: nat, category: string)
    requires i < |AGENT_ROLES|
  {
    category in AGENT_ROLES[i].categories
  }

  /** The category column, row by row. */
  lemma {:induction false} CategoryTable(category: string)
    ensures Serves(0, category) <==> category == "market"
    ensures Serves(1, category) <==> category == "fundamentals"
    ensures Serves(2, category) <==> category == "options" || category == "market_options"
    ensures Serves(3, category) <==> category == "portfolio"
    ensures Serves(4, category) <==> category == "catalyst"
    ensures Serves(5, category) <==> category == "discovery" || category == "web"
  {
  }

  /** Where exactly one row lists a category, the listing is that row's role. */
  lemma {:induction false} OnlyRow(category: string, i: nat, row: nat)
    requires i <= row < |AGENT_ROLES| && Serves(row, category)
    requires forall k :: i <= k < |AGENT_ROLES| && k != row ==> !Serves(k, category)
    ensures Listing(AGENT_ROLES[i..], category) == [AGENT_ROLES[row].id]
    decreases |AGENT_ROLES| - i
  {
    ListingStep(i, category);
    if i < row {
      OnlyRow(category, i + 1, row);
    } else {
      NoRow(category, i + 1);
    }
  }

  lemma {:induction false} NoRow(category: string, i: nat)
    requires i <= |AGENT_ROLES| && forall k :: i <= k < |AGENT_ROLES| ==> !Serves(k, category)
    ensures Listing(AGENT_ROLES[i..], category) == []
    decreases |AGENT_ROLES| - i
  {
    if i < |AGENT_ROLES| {
      ListingStep(i, category);
      NoRow(category, i + 1);
    }
  }

  lemma {:induction false} ListingStep(i: nat, category: string)
    requires i < |AGENT_ROLES|
    ensures Serves(i, category) ==>
      Listing(AGENT_ROLES[i..], category) == [AGENT_ROLES[i].id] + Listing(AGENT_ROLES[i + 1..], category)
    ensures !Serves(i, category) ==>
      Listing(AGENT_ROLES[i..], category) == Listing(AGENT_ROLES[i + 1..], category)
  {
    var roles := AGENT_ROLES[i..];
    assert roles[0] == AGENT_ROLES[i] && roles[1..] == AGENT_ROLES[i + 1..];
  }

  function OwnerRow(category: string): Option<nat> {
    if category == "market" then Some(0)
    else if category == "fundamentals" then Some(1)
    else if category == "options" || category == "market_options" then Some(2)
    else if category == "portfolio" then Some(3)
    else if category == "catalyst" then Some(4)
    else if category == "discovery" || category == "web" then Some(5)
    else None
  }

  lemma {:induction false} OwnerIsOnlyListing(category: string)
    ensures Listing(AGENT_ROLES, category) == match OwnerRow(category)
      case None => []
      case Some(row) => [AGENT_ROLES[row].id]
  {
    assert AGENT_ROLES[0..] == AGENT_ROLES;
    CategoryTable(category);
    match OwnerRow(category) {
      case None => NoRow(category, 0);
      case Some(row) => OnlyRow(category, 0, row);
    }
  }

  /** No tool has two owners, and an owner is an installed revision-1 role. */
  lemma {:induction false} AtMostOneOwner(catalog: Catalog, toolId: string)
    ensures |AgentRolesForTool(catalog, toolId)| <= 1
    ensures forall id :: id in AgentRolesForTool(catalog, toolId) ==> Installed(id)
  {
    var tool := LookupTool(catalog, toolId);
    if tool.Some? {
      OwnerIsOnlyListing(tool.value.category);
      var row := OwnerRow(tool.value.category);
      if row.Some? {
        RoleTable(AGENT_ROLES[row.value].id);
      }
    }
  }

  /** An installed Specialist role: found in the table, revision 1. */
  predicate Installed(id: string) {
    LookupAgentRole(id).Some? && LookupAgentRole(id).value.revision == 1
  }

  predicate RoleName(id: string) {
    || id == "market_scout" || id == "fundamental_scout" || id == "options_scout"
    || id == "position_manager" || id == "catalyst_scout" || id == "discovery_scout"
  }

  /** What the table says about any role found in it. */
  lemma {:induction false} RoleTable(id: string)
    ensures LookupAgentRole(id).Some? <==> RoleName(id)
    ensures LookupAgentRole(id).Some? ==>
      LookupAgentRole(id).value.(categories := []) == Role(id, 1, [], "specialist_memo_v1", 1)
  {
    FindStep(0, id);
    FindStep(1, id);
    FindStep(2, id);
    FindStep(3, id);
    FindStep(4, id);
    FindStep(5, id);
    assert FindRole(AGENT_ROLES[6..], id) == None;
  }

  lemma {:induction false} FindStep(i: nat, id: string)
    requires i < |AGENT_ROLES|
    ensures FindRole(AGENT_ROLES[i..], id)
         == if AGENT_ROLES[i].id == id then Some(AGENT_ROLES[i]) else FindRole(AGENT_ROLES[i + 1..], id)
  {
    assert AGENT_ROLES[i..][1..] == AGENT_ROLES[i + 1..];
  }
}
