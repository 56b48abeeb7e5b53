// The common records, character by character and field by field
// (agent-platform/contracts/contracts.go, agent-platform/blob/contracts.go).
module ContractTerms {
  import opened Collections
  import opened Text
  import opened Utf8
  import opened Contracts
  import opened Budget

  /** The characters of Unicode property White_Space. */
  const SPACES: seq<char> := [
    '\U{9}', '\U{A}', '\U{B}', '\U{C}', '\U{D}', '\U{20}', '\U{85}', '\U{A0}', '\U{1680}',
    '\U{2000}', '\U{2001}', '\U{2002}', '\U{2003}', '\U{2004}', '\U{2005}', '\U{2006}', '\U{2007}', '\U{2008}',
    '\U{2009}', '\U{200A}', '\U{2028}', '\U{2029}', '\U{202F}', '\U{205F}', '\U{3000}']

  ghost predicate White(s: string) {
    forall i :: 0 <= i < |s| ==> s[i] in SPACES
  }

  // ----- identifiers, names and digests -----

  /** Neither white space nor a control character. */
  ghost predicate Visible(c: char) {
    c !in SPACES && ('\U{20}' <= c < '\U{7F}' || '\U{A0}' <= c)
  }

  /** At most 200 bytes in UTF-8. */
  ghost predicate Identifier(s: string) {
    s != "" && |Encode(s)| <= 200 && forall i :: 0 <= i < |s| ==> Visible(s[i])
  }

  ghost predicate Name(s: string) {
    && 1 <= |s| <= 64 && 'a' <= s[0] <= 'z'
    && forall i :: 0 <= i < |s| ==> 'a' <= s[i] <= 'z' || '0' <= s[i] <= '9' || s[i] == '_'
  }

  ghost predicate HexDigest(s: string) {
    |s| == 64 && forall i :: 0 <= i < |s| ==> s[i] in "0123456789abcdef"
  }

  lemma {:induction false} SpaceIff(c: char)
    ensures IsSpace(c) <==> c in SPACES
  {
    if IsSpace(c) {
      var k := c as int;
      assert 0x2000 <= k <= 0x200A ==> SPACES[k - 0x2000 + 9] == c;
      assert 9 <= k <= 13 ==> SPACES[k - 9] == c;
      assert SPACES[5] == '\U{20}' && SPACES[6] == '\U{85}' && SPACES[7] == '\U{A0}' && SPACES[8] == '\U{1680}';
      assert SPACES[20] == '\U{2028}' && SPACES[21] == '\U{2029}' && SPACES[22] == '\U{202F}';
      assert SPACES[23] == '\U{205F}' && SPACES[24] == '\U{3000}';
    }
  }

  lemma {:induction false} WhiteIff(s: string)
    ensures Blank(s) <==> White(s)
  {
    forall i | 0 <= i < |s|
      ensures IsSpace(s[i]) <==> s[i] in SPACES
    {
      SpaceIff(s[i]);
    }
  }

  /** The byte length is the length of the encoding. */
  lemma {:induction false} EncodedLength(s: string)
    ensures ByteLength(s) == |Encode(s)|
  {
    if s != "" {
      EncodedLength(s[1..]);
    }
  }

  lemma {:induction false} IdentifierIff(s: string)
    ensures ValidID(s) <==> Identifier(s)
  {
    hide TrimSpace, IsSpace;
    EncodedLength(s);
    forall i | 0 <= i < |s|
      ensures !IsSpace(s[i]) && !IsControl(s[i]) <==> Visible(s[i])
    {
      SpaceIff(s[i]);
    }
    if s != "" && NoSpaceOrControl(s) {
      TrimmedFixed(s);
    }
  }

  lemma {:induction false} NameIff(s: string)
    ensures ValidName(s) <==> Name(s)
  {
  }

  lemma {:induction false} DigestIff(s: string)
    ensures ValidDigest(s) <==> HexDigest(s)
  {
    forall i | 0 <= i < |s|
      ensures Digit(s[i]) || 'a' <= s[i] <= 'f' <==> s[i] in "0123456789abcdef"
    {
      HexIs(s[i]);
    }
  }

  lemma {:induction false} HexIs(c: char)
    ensures '0' <= c <= '9' || 'a' <= c <= 'f' <==> c in "0123456789abcdef"
  {
    var digits := "0123456789abcdef";
    assert '0' <= c <= '9' ==> digits[c as int - '0' as int] == c;
    assert 'a' <= c <= 'f' ==> digits[c as int - 'a' as int + 10] == c;
  }

  // ----- records -----

  ghost predicate GoodRecord(r: RecordRef) {
    && r.owner in {"agent_control", "worker", "platform_governance", "blob", "research_gateway", "gexbot_provider",
                   "grace", "delegation", "kernel"}
    && Name(r.recordType) && Identifier(r.recordId) && r.schemaRevision == 1 && HexDigest(r.recordDigest)
  }

  ghost predicate ControlOwned(r: RecordRef, recordType: string) {
    GoodRecord(r) && r.owner == "agent_control" && r.recordType == recordType
  }

  ghost predicate Revision(r: RevisionRef, recordType: string) {
    ControlOwned(r.record, recordType) && r.generation >= 1
  }

  ghost predicate Objective(b: BlobRef) {
    b.wellFormed && ControlOwned(b.origin, "task_objective") && b.committedAt != 0
  }

  const AUDIENCES: set<Audience> := {
    ControlApi, Worker, ResearchGateway, GraceIntake, GraceEngine, DelegationEngine, Validator, Activator,
    KernelAudience, KernelAdmin}

  ghost predicate ControlActor(a: AuditActor) {
    Identifier(a.principalId) && a.kind == Workload && a.audience == ControlApi
  }

  ghost predicate GoodEnvelope(e: CommandEnvelope) {
    && e.schemaRevision == 1 && Identifier(e.commandId) && Identifier(e.actor.principalId)
    && e.actor.kind in {User, Workload, Kernel} && e.actor.audience in AUDIENCES && e.audience in AUDIENCES
    && Name(e.commandType) && Identifier(e.idempotencyKey) && HexDigest(e.requestDigest)
    && Identifier(e.causationId) && Identifier(e.correlationId) && e.deadline != 0
  }

  lemma {:induction false} RecordIff(r: RecordRef)
    ensures r.Valid() <==> GoodRecord(r)
  {
    hide ValidName, Name, ValidID, Identifier, ValidDigest, HexDigest;
    NameIff(r.recordType);
    IdentifierIff(r.recordId);
    DigestIff(r.recordDigest);
  }

  lemma {:induction false} ControlOwnedIff(r: RecordRef, recordType: string)
    ensures ControlRecord(r, recordType) <==> ControlOwned(r, recordType)
  {
    hide GoodRecord;
    RecordIff(r);
  }

  lemma {:induction false} RevisionIff(r: RevisionRef, recordType: string)
    ensures ControlRevision(r, recordType) <==> Revision(r, recordType)
  {
    hide GoodRecord;
    RecordIff(r.record);
  }

  lemma {:induction false} ObjectiveIff(b: BlobRef)
    ensures ObjectiveBlob(b) <==> Objective(b)
  {
    hide GoodRecord;
    RecordIff(b.origin);
  }

  lemma {:induction false} ActorIff(a: AuditActor)
    ensures a.ControlWorkload() <==> ControlActor(a)
  {
    hide ValidID, Identifier;
    IdentifierIff(a.principalId);
  }

  lemma {:induction false} EnvelopeIff(e: CommandEnvelope)
    ensures e.Valid() <==> GoodEnvelope(e)
  {
    hide ValidName, Name, ValidID, Identifier, ValidDigest, HexDigest;
    NameIff(e.commandType);
    DigestIff(e.requestDigest);
    IdentifierIff(e.commandId);
    IdentifierIff(e.actor.principalId);
    IdentifierIff(e.idempotencyKey);
    IdentifierIff(e.causationId);
    IdentifierIff(e.correlationId);
  }

  lemma {:induction false} DistinctMeans<T(!new)>(s: seq<T>)
    ensures Distinct(s) <==> forall i, j :: 0 <= i < j < |s| ==> s[i] != s[j]
  {
    if Distinct(s) {
      forall i, j | 0 <= i < j < |s|
        ensures s[i] != s[j]
      {
        DistinctPositions(s, i, j);
      }
    } else if forall i, j :: 0 <= i < j < |s| ==> s[i] != s[j] {
      DistinctIfApart(s);
    }
  }
}
