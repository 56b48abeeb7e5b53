// Which model advice and which proposals are acceptable, character by character and field
// by field (agent-platform/taskgraphproposal/proposal.go).
module TaskGraphAdvice {
  import opened Collections
  import opened Text
  import opened Utf8
  import opened Capability
  import opened ContractTerms
  import opened TaskGraphProposal

  /** Not empty, without white space at either end, of at most 4000 bytes in UTF-8, and
      without control characters except line feeds and tabs. */
  ghost predicate CleanText(s: string) {
    && s != "" && s[0] !in SPACES && s[|s| - 1] !in SPACES && |Encode(s)| <= 4000
    && forall i :: 0 <= i < |s| ==>
         s[i] == '\U{9}' || s[i] == '\U{A}' || '\U{20}' <= s[i] < '\U{7F}' || '\U{A0}' <= s[i]
  }

  /** The same between white space. */
  ghost predicate CleanWithin(s: string) {
    exists front, text, back :: s == front + text + back && White(front) && White(back) && CleanText(text)
  }

  lemma {:induction false} TrimmedIff(s: string)
    ensures TrimSpace(s) == s <==> Trimmed(s)
  {
    if TrimSpace(s) == s {
      var _, _ := TrimSpaceSplits(s);
    } else if Trimmed(s) {
      TrimmedFixed(s);
    }
  }

  lemma {:induction false} BoundedIff(s: string)
    ensures BoundedText(s, 1, 4000) <==> CleanText(s)
  {
    hide IsSpace, TrimSpace;
    TrimmedIff(s);
    EncodedLength(s);
    if s != "" {
      SpaceIff(s[0]);
      SpaceIff(s[|s| - 1]);
    }
  }

  lemma {:induction false} CutUnique(front: string, text: string, back: string)
    requires Blank(front) && Blank(back) && text != "" && Trimmed(text)
    ensures TrimSpace(front + text + back) == text
  {
    LeftCut(front, text + back);
    Regroup(front, text, back);
    RightCut(text, back);
  }

  lemma {:induction false} LeftCut(front: string, rest: string)
    requires Blank(front) && rest != "" && !IsSpace(rest[0])
    ensures TrimLeft(front + rest) == rest
  {
    if front == "" {
      assert front + rest == rest;
    } else {
      assert (front + rest)[1..] == front[1..] + rest;
      LeftCut(front[1..], rest);
    }
  }

  lemma {:induction false} RightCut(text: string, back: string)
    requires Blank(back) && text != "" && !IsSpace(text[|text| - 1])
    ensures TrimRight(text + back) == text
  {
    if back == "" {
      assert text + back == text;
    } else {
      var s := text + back;
      assert s[..|s| - 1] == text + back[..|back| - 1];
      RightCut(text, back[..|back| - 1]);
    }
  }

  lemma {:induction false} BoundedAdviceIff(s: string)
    ensures BoundedAdviceText(s, 1, 4000) <==> CleanWithin(s)
  {
    hide IsSpace, TrimSpace, CleanText, BoundedText;
    var front, back := TrimSpaceSplits(s);
    BoundedIff(TrimSpace(s));
    WhiteIff(front);
    WhiteIff(back);
    if front', text, back' :| s == front' + text + back' && White(front') && White(back') && CleanText(text) {
      WhiteIff(front');
      WhiteIff(back');
      CleanTrimmed(text);
      CutUnique(front', text, back');
    }
  }

  lemma {:induction false} CleanTrimmed(s: string)
    requires CleanText(s)
    ensures s != "" && Trimmed(s)
  {
    SpaceIff(s[0]);
    SpaceIff(s[|s| - 1]);
  }

  /** One of the six Specialists. */
  ghost predicate Specialist(id: string) {
    id in {"market_scout", "fundamental_scout", "options_scout", "position_manager", "catalyst_scout",
           "discovery_scout"}
  }

  /** The Specialist a category of tools belongs to. */
  const OWNERS: map<string, string> := map[
    "market" := "market_scout", "fundamentals" := "fundamental_scout", "options" := "options_scout",
    "market_options" := "options_scout", "portfolio" := "position_manager", "catalyst" := "catalyst_scout",
    "discovery" := "discovery_scout", "web" := "discovery_scout"]

  /** The tool is installed, active, of revision 1 and read only, and belongs to a Specialist. */
  ghost predicate OwnedTool(catalog: Catalog, toolId: string) {
    var tool := LookupTool(catalog, toolId);
    && tool.Some? && tool.value.active && tool.value.revision == 1 && tool.value.effect == "read_only"
    && tool.value.category in OWNERS
  }

  lemma {:induction false} OwnersAre(catalog: Catalog, toolId: string)
    requires LookupTool(catalog, toolId).Some?
    ensures var category := LookupTool(catalog, toolId).value.category;
      AgentRolesForTool(catalog, toolId) == if category in OWNERS then [OWNERS[category]] else []
  {
    hide LookupTool;
    OwnersListed(LookupTool(catalog, toolId).value.category);
  }

  lemma {:induction false} OwnersListed(category: string)
    ensures Listing(AGENT_ROLES, category) == if category in OWNERS then [OWNERS[category]] else []
  {
    hide Listing;
    OwnerIsOnlyListing(category);
  }

  lemma {:induction false} SpecialistIff(id: string)
    ensures Installed(id) <==> Specialist(id)
  {
    RoleTable(id);
  }

  /** What advice must look like: every tool has an owner, whatever the branch says. */
  ghost predicate GoodAdvice(catalog: Catalog, v: Proposal) {
    && v.schemaRevision == 1 && (v.joinMode == AllRequired || v.joinMode == MinimumSucceeded)
    && 2 <= |v.branches| <= 4 && CleanWithin(v.rationale)
    && forall i :: 0 <= i < |v.branches| ==> GoodAdviceBranch(catalog, v.branches[i])
  }

  ghost predicate GoodAdviceBranch(catalog: Catalog, b: Branch) {
    CleanWithin(b.objective) && Specialist(b.roleId) && (b.toolId == "" || OwnedTool(catalog, b.toolId))
  }

  /** What a proposal must look like: trimmed texts, each tool with its owner, and no two
      branches alike in role and tool. */
  ghost predicate GoodProposal(catalog: Catalog, v: Proposal) {
    && v.schemaRevision == 1 && (v.joinMode == AllRequired || v.joinMode == MinimumSucceeded)
    && 2 <= |v.branches| <= 4 && CleanText(v.rationale)
    && (forall i :: 0 <= i < |v.branches| ==> GoodBranch(catalog, v.branches[i]))
    && (forall i, j :: 0 <= i < j < |v.branches| ==>
          v.branches[i].roleId != v.branches[j].roleId || v.branches[i].toolId != v.branches[j].toolId)
  }

  ghost predicate GoodBranch(catalog: Catalog, b: Branch) {
    && CleanText(b.objective) && Specialist(b.roleId)
    && (b.toolId == "" || (OwnedTool(catalog, b.toolId)
                           && OWNERS[LookupTool(catalog, b.toolId).value.category] == b.roleId))
  }

  lemma {:induction false} AdviceBranchIff(catalog: Catalog, b: Branch)
    ensures AdviceBranchValid(catalog, b) <==> GoodAdviceBranch(catalog, b)
  {
    hide BoundedAdviceText, CleanWithin, AgentRolesForTool, Installed, Specialist;
    BoundedAdviceIff(b.objective);
    SpecialistIff(b.roleId);
    if LookupTool(catalog, b.toolId).Some? {
      OwnersAre(catalog, b.toolId);
    }
  }

  lemma {:induction false} BranchIff(catalog: Catalog, b: Branch)
    ensures BranchValid(catalog, b) <==> GoodBranch(catalog, b)
  {
    hide BoundedText, CleanText, AgentRolesForTool, Installed, Specialist;
    BoundedIff(b.objective);
    SpecialistIff(b.roleId);
    if LookupTool(catalog, b.toolId).Some? {
      OwnersAre(catalog, b.toolId);
    }
  }

  lemma {:induction false} AdviceIff(catalog: Catalog, v: Proposal)
    ensures AdviceValid(catalog, v) <==> GoodAdvice(catalog, v)
  {
    hide AdviceBranchValid, GoodAdviceBranch, BoundedAdviceText, CleanWithin;
    BoundedAdviceIff(v.rationale);
    forall i | 0 <= i < |v.branches|
      ensures AdviceBranchValid(catalog, v.branches[i]) <==> GoodAdviceBranch(catalog, v.branches[i])
    {
      AdviceBranchIff(catalog, v.branches[i]);
    }
  }

  lemma {:induction false} ProposalIff(catalog: Catalog, v: Proposal)
    ensures ProposalValid(catalog, v) <==> GoodProposal(catalog, v)
  {
    hide BranchValid, GoodBranch, BoundedText, CleanText;
    BoundedIff(v.rationale);
    forall i | 0 <= i < |v.branches|
      ensures BranchValid(catalog, v.branches[i]) <==> GoodBranch(catalog, v.branches[i])
    {
      BranchIff(catalog, v.branches[i]);
    }
    DistinctMeans(Lanes(v.branches));
    forall i, j | 0 <= i < |v.branches| && 0 <= j < |v.branches|
      ensures Lanes(v.branches)[i] == Lanes(v.branches)[j] <==>
        v.branches[i].roleId == v.branches[j].roleId && v.branches[i].toolId == v.branches[j].toolId
    {
    }
  }
}
