// The model's planning advice and its canonical form
// (agent-platform/taskgraphproposal/proposal.go).
module TaskGraphProposal {
  import opened Collections
  import opened Text
  import opened Capability

  const MIN_BRANCHES := 2
  const MAX_BRANCHES := 4

  datatype JoinMode = AllRequired | MinimumSucceeded | OtherMode(name: string)
  datatype Branch = Branch(roleId: string, objective: string, toolId: string)
  datatype Proposal = Proposal(schemaRevision: int, rationale: string, joinMode: JoinMode, branches: seq<Branch>)

  predicate TextCharacter(c: char) {
    IsControl(c) ==> c == '\n' || c == '\t'
  }

  predicate BoundedText(s: string, minimum: nat, maximum: nat) {
    TrimSpace(s) == s && minimum <= ByteLength(s) <= maximum && forall i :: 0 <= i < |s| ==> TextCharacter(s[i])
  }

  predicate BoundedAdviceText(s: string, minimum: nat, maximum: nat) {
    BoundedText(TrimSpace(s), minimum, maximum)
  }

  /** An installed tool that advice may name. */
  predicate UsableTool(catalog: Catalog, toolId: string) {
    var tool := LookupTool(catalog, toolId);
    tool.Some? && tool.value.active && tool.value.revision == 1 && tool.value.effect == "read_only"
  }

  predicate ShapeValid(v: Proposal) {
    v.schemaRevision == 1 && !v.joinMode.OtherMode? && MIN_BRANCHES <= |v.branches| <= MAX_BRANCHES
  }

  predicate AdviceBranchValid(catalog: Catalog, b: Branch) {
    && BoundedAdviceText(b.objective, 1, 4000) && Installed(b.roleId)
    && (b.toolId != "" ==> UsableTool(catalog, b.toolId) && |AgentRolesForTool(catalog, b.toolId)| == 1)
  }

  ghost predicate AdviceValid(catalog: Catalog, v: Proposal) {
    && ShapeValid(v) && BoundedAdviceText(v.rationale, 1, 4000)
    && (forall i {:trigger v.branches[i]} :: 0 <= i < |v.branches| ==> AdviceBranchValid(catalog, v.branches[i]))
  }

  predicate BranchValid(catalog: Catalog, b: Branch) {
    BoundedText(b.objective, 1, 4000) && Installed(b.roleId) && ToolFits(catalog, b)
  }

  predicate ToolFits(catalog: Catalog, b: Branch) {
    b.toolId != "" ==> UsableTool(catalog, b.toolId) && b.roleId in AgentRolesForTool(catalog, b.toolId)
  }

  ghost function Lanes(branches: seq<Branch>): (lanes: seq<(string, string)>)
    ensures |lanes| == |branches|
    ensures forall i {:trigger lanes[i]} :: 0 <= i < |branches| ==> lanes[i] == (branches[i].roleId, branches[i].toolId)
  {
    seq(|branches|, i requires 0 <= i < |branches| => (branches[i].roleId, branches[i].toolId))
  }

  /** Valid proposals: every branch is valid and no role-and-tool lane repeats. */
  ghost predicate ProposalValid(catalog: Catalog, v: Proposal) {
    ShapeValid(v) && BoundedText(v.rationale, 1, 4000) && BranchesValid(catalog, v.branches)
  }

  ghost predicate BranchesValid(catalog: Catalog, branches: seq<Branch>) {
    && (forall i {:trigger branches[i]} :: 0 <= i < |branches| ==> BranchValid(catalog, branches[i]))
    && Distinct(Lanes(branches))
  }

  // ----- the canonical form, said without a loop -----

  ghost function ToolsUsed(branches: seq<Branch>): set<string> {
    set b | b in branches && b.toolId != "" :: b.toolId
  }

  function RoleOf(catalog: Catalog, b: Branch): string {
    var owners := AgentRolesForTool(catalog, b.toolId);
    if b.toolId != "" && |owners| == 1 then owners[0] else b.roleId
  }

  /** A branch moves to the owner of its tool, and keeps the tool only if no
      earlier branch has it. */
  ghost function Settle(catalog: Catalog, before: seq<Branch>, b: Branch): Branch {
    Branch(RoleOf(catalog, b), TrimSpace(b.objective), if b.toolId in ToolsUsed(before) then "" else b.toolId)
  }

  ghost function SettleAll(catalog: Catalog, branches: seq<Branch>): (settled: seq<Branch>)
    ensures |settled| == |branches|
  {
    if branches == [] then []
    else
      var init := branches[..|branches| - 1];
      SettleAll(catalog, init) + [Settle(catalog, init, branches[|branches| - 1])]
  }

  ghost function Canonical(catalog: Catalog, v: Proposal): Proposal {
    v.(rationale := TrimSpace(v.rationale), branches := SettleAll(catalog, v.branches))
  }

  ghost function CanonicalForm(catalog: Catalog, v: Proposal): Option<Proposal> {
    if AdviceValid(catalog, v) && Distinct(Lanes(SettleAll(catalog, v.branches)))
    then Some(Canonical(catalog, v)) else None
  }

  // ----- the checkers -----

  method CheckAdvice(catalog: Catalog, branches: seq<Branch>) returns (ok: bool)
    ensures ok <==> forall i {:trigger branches[i]} :: 0 <= i < |branches| ==> AdviceBranchValid(catalog, branches[i])
  {
    for i := 0 to |branches|
      invariant forall j {:trigger branches[j]} :: 0 <= j < i ==> AdviceBranchValid(catalog, branches[j])
    {
      if !AdviceBranchValid(catalog, branches[i]) {
        return false;
      }
    }
    ok := true;
  }

  method ValidateAdvice(catalog: Catalog, v: Proposal) returns (ok: bool)
    ensures ok <==> AdviceValid(catalog, v)
  {
    if !ShapeValid(v) || !BoundedAdviceText(v.rationale, 1, 4000) {
      return false;
    }
    ok := CheckAdvice(catalog, v.branches);
  }

  /** The map key of a lane. Role names hold no NUL, so it determines the lane. */
  function Key(roleId: string, toolId: string): string {
    roleId + ['\0'] + toolId
  }

  ghost function KeysOf(branches: seq<Branch>): set<string> {
    set b | b in branches :: Key(b.roleId, b.toolId)
  }

  lemma {:induction false} NoNulInRole(roleId: string)
    requires Installed(roleId)
    ensures '\0' !in roleId
  {
    RoleTable(roleId);
    NoNulInName(roleId);
  }

  lemma {:induction false} NoNulInName(roleId: string)
    requires RoleName(roleId)
    ensures '\0' !in roleId
  {
  }

  lemma {:induction false} KeysAreLanes(branches: seq<Branch>, b: Branch)
    requires Installed(b.roleId) && forall a :: a in branches ==> Installed(a.roleId)
    ensures Key(b.roleId, b.toolId) in KeysOf(branches) <==> (b.roleId, b.toolId) in Lanes(branches)
  {
    if Key(b.roleId, b.toolId) in KeysOf(branches) {
      var a :| a in branches && Key(a.roleId, a.toolId) == Key(b.roleId, b.toolId);
      NoNulInRole(a.roleId);
      NoNulInRole(b.roleId);
      SeparatedInjective(a.roleId, a.toolId, b.roleId, b.toolId, '\0');
      var i :| 0 <= i < |branches| && branches[i] == a;
      assert Lanes(branches)[i] == (b.roleId, b.toolId);
    }
    if (b.roleId, b.toolId) in Lanes(branches) {
      var i :| 0 <= i < |branches| && Lanes(branches)[i] == (b.roleId, b.toolId);
      assert branches[i] in branches;
    }
  }

  lemma {:induction false} LanesSnoc(branches: seq<Branch>, b: Branch)
    ensures Lanes(branches + [b]) == Lanes(branches) + [(b.roleId, b.toolId)]
    ensures KeysOf(branches + [b]) == KeysOf(branches) + {Key(b.roleId, b.toolId)}
    ensures Distinct(Lanes(branches + [b])) <==> Distinct(Lanes(branches)) && (b.roleId, b.toolId) !in Lanes(branches)
  {
    assert Lanes(branches + [b])[..|branches|] == Lanes(branches);
    assert forall a :: a in branches + [b] <==> a in branches || a == b;
  }

  /** Earlier lanes repeat, so all of them do. */
  lemma {:induction false} RepeatStays(branches: seq<Branch>, i: nat)
    requires i <= |branches| && !Distinct(Lanes(branches[..i]))
    ensures !Distinct(Lanes(branches))
    decreases |branches| - i
  {
    if i < |branches| {
      assert branches[..i + 1] == branches[..i] + [branches[i]];
      LanesSnoc(branches[..i], branches[i]);
      RepeatStays(branches, i + 1);
    } else {
      assert branches[..i] == branches;
    }
  }

  lemma {:induction false} BranchRead(catalog: Catalog, branches: seq<Branch>, i: nat)
    requires i < |branches| && BranchesValid(catalog, branches[..i]) && BranchValid(catalog, branches[i])
    requires (branches[i].roleId, branches[i].toolId) !in Lanes(branches[..i])
    ensures BranchesValid(catalog, branches[..i + 1])
    ensures KeysOf(branches[..i + 1]) == KeysOf(branches[..i]) + {Key(branches[i].roleId, branches[i].toolId)}
  {
    assert branches[..i + 1] == branches[..i] + [branches[i]];
    LanesSnoc(branches[..i], branches[i]);
    forall k {:trigger branches[..i + 1][k]} | 0 <= k < i + 1
      ensures BranchValid(catalog, branches[..i + 1][k])
    {
      if k < i {
        assert branches[..i][k] == branches[k];
      }
    }
  }

  lemma {:induction false} BranchRefused(catalog: Catalog, branches: seq<Branch>, i: nat)
    requires i < |branches|
    requires !BranchValid(catalog, branches[i])
             || (branches[i].roleId, branches[i].toolId) in Lanes(branches[..i])
    ensures !BranchesValid(catalog, branches)
  {
    if BranchValid(catalog, branches[i]) {
      assert branches[..i + 1] == branches[..i] + [branches[i]];
      LanesSnoc(branches[..i], branches[i]);
      RepeatStays(branches, i + 1);
    }
  }

  lemma {:induction false} RolesInstalled(catalog: Catalog, branches: seq<Branch>)
    requires BranchesValid(catalog, branches)
    ensures forall a :: a in branches ==> Installed(a.roleId)
  {
    forall a | a in branches
      ensures Installed(a.roleId)
    {
      var i :| 0 <= i < |branches| && branches[i] == a;
    }
  }

  method Validate(catalog: Catalog, v: Proposal) returns (ok: bool)
    ensures ok <==> ProposalValid(catalog, v)
  {
    if !ShapeValid(v) || !BoundedText(v.rationale, 1, 4000) {
      return false;
    }
    var seen: set<string> := {};
    var i := 0;
    while i < |v.branches|
      invariant 0 <= i <= |v.branches|
      invariant BranchesValid(catalog, v.branches[..i]) && seen == KeysOf(v.branches[..i])
    {
      var b := v.branches[i];
      if !(BoundedText(b.objective, 1, 4000) && Installed(b.roleId)) {
        BranchRefused(catalog, v.branches, i);
        return false;
      }
      var key := Key(b.roleId, b.toolId);
      RolesInstalled(catalog, v.branches[..i]);
      KeysAreLanes(v.branches[..i], b);
      if key in seen || !ToolFits(catalog, b) {
        BranchRefused(catalog, v.branches, i);
        return false;
      }
      seen := seen + {key};
      BranchRead(catalog, v.branches, i);
      i := i + 1;
    }
    assert v.branches[..i] == v.branches;
    ok := true;
  }

  // ----- the canonicalizing loop -----

  /** Where the loop stands: the first i branches are rewritten in place. */
  ghost predicate Rewritten(catalog: Catalog, branches: seq<Branch>, i: nat, current: seq<Branch>, seen: set<string>) {
    && i <= |branches| && current == SettleAll(catalog, branches[..i]) + branches[i..]
    && seen == KeysOf(SettleAll(catalog, branches[..i])) && Distinct(Lanes(SettleAll(catalog, branches[..i])))
  }

  lemma {:induction false} SettleSnoc(catalog: Catalog, branches: seq<Branch>, i: nat)
    requires i < |branches|
    ensures SettleAll(catalog, branches[..i + 1])
         == SettleAll(catalog, branches[..i]) + [Settle(catalog, branches[..i], branches[i])]
  {
    assert branches[..i + 1][..i] == branches[..i];
  }

  /** Position by position. */
  lemma {:induction false} SettleAt(catalog: Catalog, branches: seq<Branch>, i: nat)
    requires i < |branches|
    ensures SettleAll(catalog, branches)[i] == Settle(catalog, branches[..i], branches[i])
  {
    var init := branches[..|branches| - 1];
    if i < |init| {
      SettleAt(catalog, init, i);
      assert init[..i] == branches[..i];
    } else {
      assert init == branches[..i];
    }
  }

  lemma {:induction false} SettledRole(catalog: Catalog, b: Branch)
    requires AdviceBranchValid(catalog, b)
    ensures Installed(RoleOf(catalog, b))
  {
    AtMostOneOwner(catalog, b.toolId);
  }

  /** The lane of a tool is taken exactly when the tool was used before: the tool
      determines the role. */
  lemma {:induction false} ToolLaneTaken(catalog: Catalog, before: seq<Branch>, b: Branch)
    requires b.toolId != ""
    requires forall a :: a in before && a.toolId == b.toolId ==> RoleOf(catalog, a) == RoleOf(catalog, b)
    ensures (RoleOf(catalog, b), b.toolId) in Lanes(SettleAll(catalog, before)) <==> b.toolId in ToolsUsed(before)
  {
    var lanes, settled := Lanes(SettleAll(catalog, before)), SettleAll(catalog, before);
    if (RoleOf(catalog, b), b.toolId) in lanes {
      var i :| 0 <= i < |before| && lanes[i] == (RoleOf(catalog, b), b.toolId);
      SettleAt(catalog, before, i);
      assert settled[i].toolId == b.toolId && before[i] in before;
    }
    if b.toolId in ToolsUsed(before) {
      var i := FirstUse(before, b.toolId);
      SettleAt(catalog, before, i);
      assert before[i] in before && before[i].toolId == b.toolId;
      assert lanes[i] == (RoleOf(catalog, b), b.toolId);
    }
  }

  lemma {:induction false} FirstUse(branches: seq<Branch>, toolId: string) returns (i: nat)
    requires toolId in ToolsUsed(branches)
    ensures i < |branches| && branches[i].toolId == toolId && toolId !in ToolsUsed(branches[..i])
  {
    var init := branches[..|branches| - 1];
    if toolId in ToolsUsed(init) {
      i := FirstUse(init, toolId);
      assert init[..i] == branches[..i];
    } else {
      i := |branches| - 1;
    }
  }

  /** Inside the loop a key has been seen exactly when its lane is taken. */
  lemma {:induction false} SeenIsTaken(catalog: Catalog, v: Proposal, i: nat, b: Branch)
    requires AdviceValid(catalog, v) && i <= |v.branches| && Installed(b.roleId)
    ensures var before := SettleAll(catalog, v.branches[..i]);
            Key(b.roleId, b.toolId) in KeysOf(before) <==> (b.roleId, b.toolId) in Lanes(before)
  {
    var before := SettleAll(catalog, v.branches[..i]);
    forall a | a in before
      ensures Installed(a.roleId)
    {
      var j :| 0 <= j < i && before[j] == a;
      SettleAt(catalog, v.branches[..i], j);
      SettledRole(catalog, v.branches[j]);
    }
    KeysAreLanes(before, b);
  }

  /** The first duplicate test: a tool's key was seen exactly when the tool was used. */
  lemma {:induction false} ToolSeen(catalog: Catalog, v: Proposal, i: nat)
    requires AdviceValid(catalog, v) && i < |v.branches| && v.branches[i].toolId != ""
    ensures var b := v.branches[i];
            Key(RoleOf(catalog, b), b.toolId) in KeysOf(SettleAll(catalog, v.branches[..i]))
            <==> b.toolId in ToolsUsed(v.branches[..i])
  {
    var b := v.branches[i];
    SettledRole(catalog, b);
    SeenIsTaken(catalog, v, i, b.(roleId := RoleOf(catalog, b)));
    ToolLaneTaken(catalog, v.branches[..i], b);
  }

  /** The second: the rewritten branch is refused exactly when its lane is taken. */
  lemma {:induction false} LaneTaken(catalog: Catalog, v: Proposal, i: nat)
    requires AdviceValid(catalog, v) && i < |v.branches|
    ensures var s := Settle(catalog, v.branches[..i], v.branches[i]);
            Key(s.roleId, s.toolId) in KeysOf(SettleAll(catalog, v.branches[..i]))
            <==> (s.roleId, s.toolId) in Lanes(SettleAll(catalog, v.branches[..i]))
  {
    SettledRole(catalog, v.branches[i]);
    SeenIsTaken(catalog, v, i, Settle(catalog, v.branches[..i], v.branches[i]));
  }

  lemma {:induction false} LaneRefused(catalog: Catalog, branches: seq<Branch>, i: nat)
    requires i < |branches|
    requires var s := Settle(catalog, branches[..i], branches[i]);
             (s.roleId, s.toolId) in Lanes(SettleAll(catalog, branches[..i]))
    ensures !Distinct(Lanes(SettleAll(catalog, branches)))
  {
    SettleSnoc(catalog, branches, i);
    LanesSnoc(SettleAll(catalog, branches[..i]), Settle(catalog, branches[..i], branches[i]));
    RefusedStays(catalog, branches, i + 1);
  }

  lemma {:induction false} RefusedStays(catalog: Catalog, branches: seq<Branch>, i: nat)
    requires i <= |branches| && !Distinct(Lanes(SettleAll(catalog, branches[..i])))
    ensures !Distinct(Lanes(SettleAll(catalog, branches)))
    decreases |branches| - i
  {
    if i < |branches| {
      SettleSnoc(catalog, branches, i);
      LanesSnoc(SettleAll(catalog, branches[..i]), Settle(catalog, branches[..i], branches[i]));
      RefusedStays(catalog, branches, i + 1);
    } else {
      assert branches[..i] == branches;
    }
  }

  lemma {:induction false} LaneAdded(catalog: Catalog, branches: seq<Branch>, i: nat, current: seq<Branch>,
                                     seen: set<string>)
    requires i < |branches| && Rewritten(catalog, branches, i, current, seen)
    requires var s := Settle(catalog, branches[..i], branches[i]);
             (s.roleId, s.toolId) !in Lanes(SettleAll(catalog, branches[..i]))
    ensures var s := Settle(catalog, branches[..i], branches[i]);
            Rewritten(catalog, branches, i + 1, current[i := s], seen + {Key(s.roleId, s.toolId)})
  {
    var s := Settle(catalog, branches[..i], branches[i]);
    SettleSnoc(catalog, branches, i);
    LanesSnoc(SettleAll(catalog, branches[..i]), s);
    NextSlice(SettleAll(catalog, branches[..i]), branches, i, s);
  }

  lemma {:induction false} NextSlice<T(!new)>(front: seq<T>, s: seq<T>, i: nat, x: T)
    requires i == |front| < |s|
    ensures (front + s[i..])[i := x] == front + [x] + s[i + 1..]
  {
  }

  /** A canonical proposal passes Validate. */
  lemma {:induction false} CanonicalIsValid(catalog: Catalog, v: Proposal)
    requires AdviceValid(catalog, v) && Distinct(Lanes(SettleAll(catalog, v.branches)))
    ensures ProposalValid(catalog, Canonical(catalog, v))
  {
    var c := Canonical(catalog, v);
    TrimSpaceIdempotent(v.rationale);
    forall i {:trigger c.branches[i]} | 0 <= i < |c.branches|
      ensures BranchValid(catalog, c.branches[i])
    {
      var b := v.branches[i];
      SettleAt(catalog, v.branches, i);
      assert AdviceBranchValid(catalog, b) && c.branches[i] == Settle(catalog, v.branches[..i], b);
      TrimSpaceIdempotent(b.objective);
      SettledRole(catalog, b);
    }
  }

  /** The rewriting of one branch, before the last duplicate test. */
  method RewriteBranch(catalog: Catalog, ghost v: Proposal, ghost i: nat, given: Branch, seen: set<string>)
      returns (branch: Branch, key: string)
    requires AdviceValid(catalog, v) && i < |v.branches| && given == v.branches[i]
    requires seen == KeysOf(SettleAll(catalog, v.branches[..i]))
    ensures branch == Settle(catalog, v.branches[..i], given) && key == Key(branch.roleId, branch.toolId)
  {
    branch := given.(objective := TrimSpace(given.objective));
    if branch.toolId != "" {
      // Valid advice names only tools with one owner, so the owner count that
      // the source tests here is one.
      assert AdviceBranchValid(catalog, v.branches[i]);
      branch := branch.(roleId := AgentRolesForTool(catalog, branch.toolId)[0]);
      ToolSeen(catalog, v, i);
    }
    key := Key(branch.roleId, branch.toolId);
    if key in seen && branch.toolId != "" {
      branch := branch.(toolId := "");
      key := Key(branch.roleId, "");
    }
  }

  method Canonicalize(catalog: Catalog, v: Proposal) returns (r: Option<Proposal>)
    ensures r == CanonicalForm(catalog, v)
  {
    var ok := ValidateAdvice(catalog, v);
    if !ok {
      return None;
    }
    var branches;
    ok, branches := RewriteBranches(catalog, v);
    if !ok {
      return None;
    }
    var canonical := v.(rationale := TrimSpace(v.rationale), branches := branches);
    CanonicalIsValid(catalog, v);
    var valid := Validate(catalog, canonical);
    // The last check of the source never rejects.
    assert valid;
    r := Some(canonical);
  }

  method RewriteBranches(catalog: Catalog, v: Proposal) returns (ok: bool, branches: seq<Branch>)
    requires AdviceValid(catalog, v)
    ensures ok <==> Distinct(Lanes(SettleAll(catalog, v.branches)))
    ensures ok ==> branches == SettleAll(catalog, v.branches)
  {
    hide Settle, SettleAll, Lanes, KeysOf, Key, Distinct, AdviceValid;
    branches := v.branches;
    var seen: set<string> := {};
    var i := 0;
    NoneRewritten(catalog, v.branches);
    while i < |branches|
      invariant 0 <= i <= |branches| == |v.branches|
      invariant Rewritten(catalog, v.branches, i, branches, seen)
    {
      assert branches[i] == v.branches[i];
      var branch, key := RewriteBranch(catalog, v, i, branches[i], seen);
      LaneTaken(catalog, v, i);
      if key in seen {
        LaneRefused(catalog, v.branches, i);
        return false, branches;
      }
      LaneAdded(catalog, v.branches, i, branches, seen);
      seen := seen + {key};
      branches := branches[i := branch];
      i := i + 1;
    }
    assert v.branches[..i] == v.branches;
    ok := true;
  }

  lemma {:induction false} NoneRewritten(catalog: Catalog, branches: seq<Branch>)
    ensures Rewritten(catalog, branches, 0, branches, {})
  {
    assert branches[..0] == [];
  }

  // ----- what the canonical form is -----

  /** The valid proposals are exactly the fixed points. */
  lemma {:induction false} ValidIsFixed(catalog: Catalog, v: Proposal)
    requires ProposalValid(catalog, v)
    ensures CanonicalForm(catalog, v) == Some(v)
  {
    TrimSpaceIdempotent(v.rationale);
    forall i {:trigger v.branches[i]} | 0 <= i < |v.branches|
      ensures AdviceBranchValid(catalog, v.branches[i])
      ensures Settle(catalog, v.branches[..i], v.branches[i]) == v.branches[i]
    {
      ValidToolFresh(catalog, v, i);
      ValidBranchFixed(catalog, v.branches[..i], v.branches[i]);
    }
    forall i | 0 <= i < |v.branches|
      ensures SettleAll(catalog, v.branches)[i] == v.branches[i]
    {
      SettleAt(catalog, v.branches, i);
    }
    assert SettleAll(catalog, v.branches) == v.branches;
  }

  lemma {:induction false} ValidBranchFixed(catalog: Catalog, before: seq<Branch>, b: Branch)
    requires BranchValid(catalog, b) && b.toolId !in ToolsUsed(before)
    ensures AdviceBranchValid(catalog, b) && Settle(catalog, before, b) == b
  {
    AtMostOneOwner(catalog, b.toolId);
  }

  lemma {:induction false} ValidToolFresh(catalog: Catalog, v: Proposal, i: nat)
    requires ProposalValid(catalog, v) && i < |v.branches|
    ensures v.branches[i].toolId !in ToolsUsed(v.branches[..i])
  {
    var b := v.branches[i];
    if b.toolId in ToolsUsed(v.branches[..i]) {
      var j := FirstUse(v.branches[..i], b.toolId);
      ToolPosition(catalog, v.branches, i, j);
    }
  }

  lemma {:induction false} ToolPosition(catalog: Catalog, branches: seq<Branch>, i: nat, j: nat)
    requires BranchesValid(catalog, branches) && i < |branches| && j < |branches|
    requires branches[i].toolId == branches[j].toolId != ""
    ensures i == j
  {
    AtMostOneOwner(catalog, branches[i].toolId);
    assert ToolFits(catalog, branches[i]) && ToolFits(catalog, branches[j]);
    assert branches[i].roleId == branches[j].roleId;
    DistinctPositions(Lanes(branches), i, j);
  }

  /** Canonicalize is a normal form: its results are valid, hence fixed, and it
      reaches exactly the valid proposals. */
  lemma {:induction false} NormalForm(catalog: Catalog, v: Proposal)
    ensures CanonicalForm(catalog, v).Some? ==>
      var c := CanonicalForm(catalog, v).value; ProposalValid(catalog, c) && CanonicalForm(catalog, c) == Some(c)
    ensures ProposalValid(catalog, v) <==> CanonicalForm(catalog, v) == Some(v)
  {
    if CanonicalForm(catalog, v).Some? {
      CanonicalIsValid(catalog, v);
      ValidIsFixed(catalog, Canonical(catalog, v));
    }
    if ProposalValid(catalog, v) {
      ValidIsFixed(catalog, v);
    }
  }

  /** What survives: the branches in order, their trimmed objectives, the tools.
      Each tool ends up in exactly one branch, that of its only owner. */
  lemma {:induction false} CanonicalKeeps(catalog: Catalog, v: Proposal)
    requires CanonicalForm(catalog, v).Some?
    ensures var c := CanonicalForm(catalog, v).value;
      && |c.branches| == |v.branches|
      && (forall i :: 0 <= i < |v.branches| ==> c.branches[i].objective == TrimSpace(v.branches[i].objective))
      && ToolsUsed(c.branches) == ToolsUsed(v.branches)
      && (forall t :: t in ToolsUsed(c.branches) ==> ToolHeldOnce(catalog, c.branches, t))
  {
    var c := Canonical(catalog, v);
    CanonicalIsValid(catalog, v);
    SettledObjectives(catalog, v.branches);
    SettledTools(catalog, v.branches);
    forall t | t in ToolsUsed(c.branches)
      ensures ToolHeldOnce(catalog, c.branches, t)
    {
      HeldOnce(catalog, c, t);
    }
  }

  lemma {:induction false} SettledObjectives(catalog: Catalog, branches: seq<Branch>)
    ensures forall i :: 0 <= i < |branches| ==>
      SettleAll(catalog, branches)[i].objective == TrimSpace(branches[i].objective)
  {
    forall i | 0 <= i < |branches|
      ensures SettleAll(catalog, branches)[i].objective == TrimSpace(branches[i].objective)
    {
      SettleAt(catalog, branches, i);
    }
  }

  lemma {:induction false} SettledTools(catalog: Catalog, branches: seq<Branch>)
    ensures ToolsUsed(SettleAll(catalog, branches)) == ToolsUsed(branches)
  {
    var settled := SettleAll(catalog, branches);
    forall t
      ensures t in ToolsUsed(settled) <==> t in ToolsUsed(branches)
    {
      if t in ToolsUsed(branches) {
        var i := FirstUse(branches, t);
        SettleAt(catalog, branches, i);
        assert settled[i].toolId == t && settled[i] in settled;
      }
      if t in ToolsUsed(settled) {
        var i :| 0 <= i < |settled| && settled[i].toolId == t && t != "";
        SettleAt(catalog, branches, i);
        assert branches[i] in branches;
      }
    }
  }

  ghost predicate ToolHeldOnce(catalog: Catalog, branches: seq<Branch>, t: string) {
    exists i :: 0 <= i < |branches| && branches[i].toolId == t
                && AgentRolesForTool(catalog, t) == [branches[i].roleId]
                && forall j :: 0 <= j < |branches| && branches[j].toolId == t ==> j == i
  }

  lemma {:induction false} HeldOnce(catalog: Catalog, c: Proposal, t: string)
    requires ProposalValid(catalog, c) && t in ToolsUsed(c.branches)
    ensures ToolHeldOnce(catalog, c.branches, t)
  {
    AtMostOneOwner(catalog, t);
    var i := FirstUse(c.branches, t);
    assert BranchValid(catalog, c.branches[i]);
    forall j | 0 <= j < |c.branches| && c.branches[j].toolId == t
      ensures j == i
    {
      ToolPosition(catalog, c.branches, i, j);
    }
    assert AgentRolesForTool(catalog, t) == [c.branches[i].roleId];
  }

  // ----- when advice is accepted -----

  /** The branches that end up with a role: those that name it without a tool, and
      all uses of the tools it owns. */
  ghost function Wanted(catalog: Catalog, branches: seq<Branch>, role: string): nat {
    multiset(RolesOf(catalog, branches))[role]
  }

  ghost function RolesOf(catalog: Catalog, branches: seq<Branch>): seq<string> {
    MapAll(RoleMap(catalog), branches)
  }

  function RoleMap(catalog: Catalog): Branch -> string {
    (b: Branch) => RoleOf(catalog, b)
  }

  ghost function RoleTools(catalog: Catalog, branches: seq<Branch>, role: string): set<string> {
    set b | b in branches && b.toolId != "" && RoleOf(catalog, b) == role :: b.toolId
  }

  ghost predicate SingleOwners(catalog: Catalog, branches: seq<Branch>) {
    forall b :: b in branches && b.toolId != "" ==> |AgentRolesForTool(catalog, b.toolId)| == 1
  }

  /** The settled branches of a role that hold no tool. */
  ghost function Spare(catalog: Catalog, branches: seq<Branch>, role: string): nat {
    if branches == [] then 0
    else
      var init := branches[..|branches| - 1];
      var s := Settle(catalog, init, branches[|branches| - 1]);
      Spare(catalog, init, role) + if s.roleId == role && s.toolId == "" then 1 else 0
  }

  lemma {:induction false} SpareLane(catalog: Catalog, branches: seq<Branch>, role: string)
    ensures (role, "") in Lanes(SettleAll(catalog, branches)) <==> Spare(catalog, branches, role) >= 1
  {
    if branches != [] {
      var init := branches[..|branches| - 1];
      SpareLane(catalog, init, role);
      LanesSnoc(SettleAll(catalog, init), Settle(catalog, init, branches[|branches| - 1]));
    }
  }

  /** Surplus: what a role is wanted for beyond one branch per tool it owns. */
  lemma {:induction false} SpareIsSurplus(catalog: Catalog, branches: seq<Branch>, role: string)
    requires SingleOwners(catalog, branches)
    ensures Spare(catalog, branches, role) + |RoleTools(catalog, branches, role)| == Wanted(catalog, branches, role)
  {
    if branches != [] {
      var init, last := branches[..|branches| - 1], branches[|branches| - 1];
      assert branches == init + [last];
      SpareIsSurplus(catalog, init, role);
      RoleToolsSnoc(catalog, init, last, role);
      SpareSnoc(catalog, init, last, role);
      WantedSnoc(catalog, init, last, role);
    } else {
      assert RolesOf(catalog, branches) == [];
    }
  }

  lemma {:induction false} SpareSnoc(catalog: Catalog, init: seq<Branch>, last: Branch, role: string)
    ensures Spare(catalog, init + [last], role) == Spare(catalog, init, role)
      + if RoleOf(catalog, last) == role && (last.toolId == "" || last.toolId in ToolsUsed(init)) then 1 else 0
  {
    assert (init + [last])[..|init|] == init;
  }

  /** A branch brings its role a new tool unless an earlier branch used it. */
  lemma {:induction false} RoleToolsSnoc(catalog: Catalog, init: seq<Branch>, last: Branch, role: string)
    requires SingleOwners(catalog, init + [last])
    ensures |RoleTools(catalog, init + [last], role)|
         == |RoleTools(catalog, init, role)|
            + if last.toolId != "" && last.toolId !in ToolsUsed(init) && RoleOf(catalog, last) == role then 1 else 0
  {
    var before, after := RoleTools(catalog, init, role), RoleTools(catalog, init + [last], role);
    assert last in init + [last];
    if last.toolId != "" && RoleOf(catalog, last) == role {
      assert after == before + {last.toolId};
      if last.toolId in ToolsUsed(init) {
        var b :| b in init && b.toolId == last.toolId;
        assert b in init + [last];
        assert RoleOf(catalog, b) == role;
      }
    } else {
      assert after == before;
    }
  }

  ghost predicate NoSurplus(catalog: Catalog, branches: seq<Branch>) {
    forall role {:trigger Spare(catalog, branches, role)} :: Spare(catalog, branches, role) <= 1
  }

  lemma {:induction false} NoSurplusSnoc(catalog: Catalog, branches: seq<Branch>)
    requires branches != []
    ensures var init := branches[..|branches| - 1];
            var s := Settle(catalog, init, branches[|branches| - 1]);
            NoSurplus(catalog, branches)
            <==> NoSurplus(catalog, init) && (s.toolId == "" ==> Spare(catalog, init, s.roleId) == 0)
  {
    var init := branches[..|branches| - 1];
    var s := Settle(catalog, init, branches[|branches| - 1]);
    if NoSurplus(catalog, branches) {
      forall role {:trigger Spare(catalog, init, role)}
        ensures Spare(catalog, init, role) <= 1
      {
        assert Spare(catalog, branches, role) <= 1;
      }
      assert Spare(catalog, branches, s.roleId) <= 1;
    }
    if NoSurplus(catalog, init) && (s.toolId == "" ==> Spare(catalog, init, s.roleId) == 0) {
      forall role {:trigger Spare(catalog, branches, role)}
        ensures Spare(catalog, branches, role) <= 1
      {
        assert Spare(catalog, init, role) <= 1;
      }
    }
  }

  lemma {:induction false} AcceptedIffSpare(catalog: Catalog, branches: seq<Branch>)
    requires SingleOwners(catalog, branches)
    ensures Distinct(Lanes(SettleAll(catalog, branches))) <==> NoSurplus(catalog, branches)
  {
    if branches != [] {
      var init, last := branches[..|branches| - 1], branches[|branches| - 1];
      var s := Settle(catalog, init, last);
      AcceptedIffSpare(catalog, init);
      NoSurplusSnoc(catalog, branches);
      LanesSnoc(SettleAll(catalog, init), s);
      SpareLane(catalog, init, s.roleId);
      if s.toolId != "" {
        ToolLaneTaken(catalog, init, last);
      }
    }
  }

  ghost predicate FewEnough(catalog: Catalog, branches: seq<Branch>) {
    forall role {:trigger Wanted(catalog, branches, role)} ::
      Wanted(catalog, branches, role) <= |RoleTools(catalog, branches, role)| + 1
  }

  /** Advice is accepted exactly when it is valid and every role is wanted at most
      once beyond the distinct tools it owns. */
  lemma {:induction false} AcceptedIff(catalog: Catalog, v: Proposal)
    ensures CanonicalForm(catalog, v).Some?
       <==> AdviceValid(catalog, v) && FewEnough(catalog, v.branches)
  {
    if AdviceValid(catalog, v) {
      AdviceOwners(catalog, v);
      AcceptedIffSpare(catalog, v.branches);
      SurplusOfAll(catalog, v.branches);
    }
  }

  lemma {:induction false} SurplusOfAll(catalog: Catalog, branches: seq<Branch>)
    requires SingleOwners(catalog, branches)
    ensures NoSurplus(catalog, branches) <==> FewEnough(catalog, branches)
  {
    if NoSurplus(catalog, branches) {
      forall role {:trigger Wanted(catalog, branches, role)}
        ensures Wanted(catalog, branches, role) <= |RoleTools(catalog, branches, role)| + 1
      {
        SpareIsSurplus(catalog, branches, role);
      }
    }
    if FewEnough(catalog, branches) {
      forall role {:trigger Spare(catalog, branches, role)}
        ensures Spare(catalog, branches, role) <= 1
      {
        SpareIsSurplus(catalog, branches, role);
      }
    }
  }

  lemma {:induction false} AdviceOwners(catalog: Catalog, v: Proposal)
    requires AdviceValid(catalog, v)
    ensures SingleOwners(catalog, v.branches)
  {
    forall b | b in v.branches && b.toolId != ""
      ensures |AgentRolesForTool(catalog, b.toolId)| == 1
    {
      var i :| 0 <= i < |v.branches| && v.branches[i] == b;
      assert AdviceBranchValid(catalog, v.branches[i]);
    }
  }

  // ----- the order of the branches does not matter -----

  lemma {:induction false} WantedSnoc(catalog: Catalog, init: seq<Branch>, last: Branch, role: string)
    ensures Wanted(catalog, init + [last], role)
         == Wanted(catalog, init, role) + if RoleOf(catalog, last) == role then 1 else 0
  {
    MapAllConcat(RoleMap(catalog), init, [last]);
    assert MapAll(RoleMap(catalog), [last]) == [RoleMap(catalog)(last)];
  }

  /** Acceptance does not depend on the order of the branches, although the loop
      does, and neither do the lanes of the result. */
  lemma {:induction false} OrderIrrelevant(catalog: Catalog, v: Proposal, permuted: seq<Branch>)
    requires multiset(v.branches) == multiset(permuted)
    ensures var w := v.(branches := permuted);
            && (CanonicalForm(catalog, v).Some? <==> CanonicalForm(catalog, w).Some?)
            && (CanonicalForm(catalog, v).Some? ==>
                  Elements(Lanes(Canonical(catalog, v).branches)) == Elements(Lanes(Canonical(catalog, w).branches)))
  {
    var w := v.(branches := permuted);
    AdvicePermuted(catalog, v, permuted);
    AdvicePermuted(catalog, w, v.branches);
    FewEnoughPermuted(catalog, v.branches, permuted);
    AcceptedIff(catalog, v);
    AcceptedIff(catalog, w);
    if AdviceValid(catalog, v) {
      AdviceOwners(catalog, v);
      AdviceOwners(catalog, w);
      LanesPermuted(catalog, v.branches, permuted);
    }
  }

  lemma {:induction false} WantedSame(catalog: Catalog, a: seq<Branch>, b: seq<Branch>)
    requires multiset(a) == multiset(b)
    ensures forall role {:trigger Wanted(catalog, a, role)} {:trigger Wanted(catalog, b, role)} ::
      Wanted(catalog, a, role) == Wanted(catalog, b, role) && RoleTools(catalog, a, role) == RoleTools(catalog, b, role)
  {
    SameElements(a, b);
    MapAllPermuted(RoleMap(catalog), a, b);
    forall role
      ensures RoleTools(catalog, a, role) == RoleTools(catalog, b, role)
    {
    }
  }

  lemma {:induction false} FewEnoughPermuted(catalog: Catalog, a: seq<Branch>, b: seq<Branch>)
    requires multiset(a) == multiset(b)
    ensures FewEnough(catalog, a) <==> FewEnough(catalog, b)
  {
    WantedSame(catalog, a, b);
  }

  lemma {:induction false} LanesPermuted(catalog: Catalog, a: seq<Branch>, b: seq<Branch>)
    requires multiset(a) == multiset(b) && SingleOwners(catalog, a) && SingleOwners(catalog, b)
    ensures Elements(Lanes(SettleAll(catalog, a))) == Elements(Lanes(SettleAll(catalog, b)))
  {
    WantedSame(catalog, a, b);
    var lanesA, lanesB := Lanes(SettleAll(catalog, a)), Lanes(SettleAll(catalog, b));
    forall lane: (string, string)
      ensures lane in lanesA <==> lane in lanesB
    {
      LaneMeaning(catalog, a, lane.0, lane.1);
      LaneMeaning(catalog, b, lane.0, lane.1);
      assert Wanted(catalog, a, lane.0) == Wanted(catalog, b, lane.0);
    }
  }

  lemma {:induction false} AdvicePermuted(catalog: Catalog, v: Proposal, permuted: seq<Branch>)
    requires multiset(v.branches) == multiset(permuted)
    ensures AdviceValid(catalog, v) ==> AdviceValid(catalog, v.(branches := permuted))
  {
    SameElements(v.branches, permuted);
    if AdviceValid(catalog, v) {
      forall i | 0 <= i < |permuted|
        ensures AdviceBranchValid(catalog, permuted[i])
      {
        assert permuted[i] in v.branches;
      }
    }
  }

  /** Which lanes the result has: one per tool and owner, and a role without a tool
      when it is wanted beyond its tools. */
  lemma {:induction false} LaneMeaning(catalog: Catalog, branches: seq<Branch>, role: string, toolId: string)
    requires SingleOwners(catalog, branches)
    ensures (role, toolId) in Lanes(SettleAll(catalog, branches))
       <==> if toolId == "" then Wanted(catalog, branches, role) > |RoleTools(catalog, branches, role)|
            else toolId in RoleTools(catalog, branches, role)
  {
    if toolId == "" {
      SpareLane(catalog, branches, role);
      SpareIsSurplus(catalog, branches, role);
    } else {
      var lanes := Lanes(SettleAll(catalog, branches));
      if (role, toolId) in lanes {
        var i :| 0 <= i < |branches| && lanes[i] == (role, toolId);
        SettleAt(catalog, branches, i);
        assert branches[i] in branches;
      }
      if toolId in RoleTools(catalog, branches, role) {
        var b :| b in branches && b.toolId == toolId && RoleOf(catalog, b) == role;
        ToolLaneTaken(catalog, branches, b);
        assert toolId in ToolsUsed(branches);
      }
    }
  }
}
