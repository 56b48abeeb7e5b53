// The governance resolver (agent-platform/governance/contracts.go).
module Governance {
  import opened Collections
  import opened Utf8
  import opened KeyOrder

  datatype Mode = Unset | Disabled | ReadOnly | Shadow | LiveConfirmed | LiveAutonomous | OtherMode(name: string)
  datatype Effect =
    | NoEffect | ExternalRead | OperationIntent | ExactConfirmation | BrokerMutation | OtherEffect(name: string)
  datatype Route = NoRoute | ExactRoute | AutonomousRoute | OtherRoute(name: string)
  datatype Gate = Enabled | Halted | OtherGate(name: string)

  const AGENT_OPERATION_EMISSION := "agent_operation_emission"
  const EXTERNAL_EXECUTION := "capability_external_execution"
  const EXACT_CONFIRMATION_LIVE := "exact_confirmation_live"
  const AUTONOMOUS_LIVE := "autonomous_live"
  const DELEGATION_ACTIVATION := "delegation_activation"

  const KNOWN_SWITCHES: set<string> := {
    AGENT_OPERATION_EMISSION, "agent_release_activation", EXTERNAL_EXECUTION, "strategy_activation",
    "grace_publication", DELEGATION_ACTIVATION, "shadow_integration", EXACT_CONFIRMATION_LIVE, AUTONOMOUS_LIVE,
    "product_equity", "product_option", "product_crypto"}

  /** A reference to a revision: its ID, and its generation and digest as one text. */
  datatype Ref = Ref(id: string, digest: string)

  /** A revision and the head that selects it. revisionOk and headOk are the verdicts
      of their own field checks. */
  datatype Binding<S(==)> = Binding(revisionOk: bool, headOk: bool, revisionSubject: string, headSubject: string,
                                revisionState: S, headState: S, revisionRef: Ref, headRef: Ref)
  {
    predicate Valid() {
      revisionOk && headOk && headSubject == revisionSubject && headState == revisionState && revisionRef == headRef
    }
  }

  datatype Snapshot = Snapshot(modeCeiling: Mode, effectCeiling: Effect, observedAt: int, freshUntil: int,
                               mode: Option<Binding<Mode>>, effects: map<Effect, Binding<Gate>>,
                               switches: map<string, Binding<Gate>>)

  datatype Request = Request(effect: Effect, route: Route, required: seq<string>)

  datatype Reason =
    | StaleSnapshot | InvalidCeiling | InvalidNoEffect | NoEffectNeeded | InvalidMode | EffectAboveCeiling
    | ModeOrRouteDenied | InvalidEffect | EffectHalted | InvalidSwitches | InvalidSwitch | SwitchHalted | AllowedReason

  /** A revision that was looked at. Its record type is that of an effect class, a
      kill switch or a platform mode, in ascending order. */
  datatype Source = EffectSource(ref: Ref) | SwitchSource(ref: Ref) | ModeSource(ref: Ref)

  /** The specification collects the sources in a multiset, the resolver lists them. */
  datatype Decision<R> = Decision(allowed: bool, reason: Reason, mode: Mode, refs: R)

  type Sources = multiset<Source>

  // ----- ranks -----

  function ModeRank(m: Mode): int {
    match m
    case Disabled => 0
    case ReadOnly => 1
    case Shadow => 2
    case LiveConfirmed => 3
    case LiveAutonomous => 4
    case _ => -1
  }

  function EffectRank(e: Effect): int {
    match e
    case NoEffect => 0
    case ExternalRead => 1
    case OperationIntent => 2
    case ExactConfirmation => 3
    case BrokerMutation => 4
    case OtherEffect(_) => 100
  }

  /** EffectiveMode: an unset mode counts as disabled. */
  function Effective(m: Mode): Mode {
    if m.Unset? then Disabled else m
  }

  function Lesser(a: Mode, b: Mode): Mode {
    if ModeRank(a) <= ModeRank(b) then a else b
  }

  predicate ModeAllows(m: Mode, e: Effect, route: Route) {
    match e
    case ExternalRead => ModeRank(m) >= 1 && route == NoRoute
    case OperationIntent => ModeRank(m) >= 2 && route == NoRoute
    case ExactConfirmation => ModeRank(m) >= 3 && route == ExactRoute
    case BrokerMutation => (route == ExactRoute && ModeRank(m) >= 3)
      || (route == AutonomousRoute && m == LiveAutonomous)
    case _ => false
  }

  // ----- required switches -----

  /** The switches an effect needs on its route, whatever the caller asks for. */
  function Mandatory(e: Effect, route: Route): seq<string> {
    match e
    case ExternalRead => [EXTERNAL_EXECUTION]
    case OperationIntent => [AGENT_OPERATION_EMISSION]
    case ExactConfirmation => [EXACT_CONFIRMATION_LIVE]
    case BrokerMutation =>
      [AGENT_OPERATION_EMISSION]
      + if route == ExactRoute then [EXACT_CONFIRMATION_LIVE]
        else if route == AutonomousRoute then [AUTONOMOUS_LIVE, DELEGATION_ACTIVATION] else []
    case _ => []
  }

  ghost function Needed(r: Request): set<string> {
    Elements(r.required) + Elements(Mandatory(r.effect, r.route))
  }

  method RequiredSwitches(r: Request) returns (ok: bool, values: seq<string>)
    ensures ok <==> Needed(r) <= KNOWN_SWITCHES
    ensures ok ==> values == SortedKeys(Needed(r))
  {
    var all := r.required + Mandatory(r.effect, r.route);
    assert Elements(all) == Needed(r);
    var seen: set<string> := {};
    for i := 0 to |all|
      invariant seen == Elements(all[..i]) && seen <= KNOWN_SWITCHES
    {
      if all[i] !in KNOWN_SWITCHES {
        assert all[i] in Elements(all);
        return false, [];
      }
      assert all[..i + 1] == all[..i] + [all[i]];
      ElementsSnoc(all[..i], all[i]);
      seen := seen + {all[i]};
    }
    assert all[..|all|] == all;
    values := SortStrings(seen);
    ok := true;
  }

  // ----- the gates -----

  predicate Fresh(s: Snapshot, r: Request, now: int) {
    && !r.effect.OtherEffect? && !r.route.OtherRoute? && now != 0 && s.observedAt != 0 && s.freshUntil != 0
    && s.observedAt < s.freshUntil && s.observedAt <= now < s.freshUntil
  }

  predicate CeilingsValid(s: Snapshot) {
    !s.modeCeiling.OtherMode? && !s.effectCeiling.OtherEffect?
  }

  function EffectiveMode(s: Snapshot): Mode
    requires s.mode.Some?
  {
    Lesser(s.mode.value.headState, Effective(s.modeCeiling))
  }

  predicate GateOpen<K(==)>(gates: map<K, Binding<Gate>>, k: K) {
    k in gates && gates[k].Valid() && gates[k].headState == Enabled
  }

  /** What an allow means: every gate is present, valid and open. */
  ghost predicate Allowed(s: Snapshot, r: Request, now: int) {
    && Fresh(s, r, now) && CeilingsValid(s)
    && if r.effect == NoEffect then r.route == NoRoute && r.required == []
       else
         && s.mode.Some? && s.mode.value.Valid()
         && EffectRank(r.effect) <= EffectRank(s.effectCeiling)
         && ModeAllows(EffectiveMode(s), r.effect, r.route)
         && GateOpen(s.effects, r.effect)
         && Needed(r) <= KNOWN_SWITCHES
         && forall k :: k in Needed(r) ==> GateOpen(s.switches, k)
  }

  // ----- the decision -----

  ghost function Decide(s: Snapshot, r: Request, now: int): Decision<Sources> {
    if !Fresh(s, r, now) then Decision(false, StaleSnapshot, Disabled, multiset{})
    else if !CeilingsValid(s) then Decision(false, InvalidCeiling, Disabled, multiset{})
    else if r.effect == NoEffect then
      if r.route != NoRoute || r.required != [] then Decision(false, InvalidNoEffect, Disabled, multiset{})
      else Decision(true, NoEffectNeeded, Disabled, multiset{})
    else if s.mode.None? || !s.mode.value.Valid() then Decision(false, InvalidMode, Disabled, multiset{})
    else DecideEffect(s, r)
  }

  ghost function DecideEffect(s: Snapshot, r: Request): Decision<Sources>
    requires s.mode.Some?
  {
    var mode, refs := EffectiveMode(s), multiset{ModeSource(s.mode.value.revisionRef)};
    if EffectRank(r.effect) > EffectRank(s.effectCeiling) then Decision(false, EffectAboveCeiling, mode, refs)
    else if !ModeAllows(mode, r.effect, r.route) then Decision(false, ModeOrRouteDenied, mode, refs)
    else if r.effect !in s.effects || !s.effects[r.effect].Valid() then Decision(false, InvalidEffect, mode, refs)
    else
      var refs' := refs + multiset{EffectSource(s.effects[r.effect].revisionRef)};
      if s.effects[r.effect].headState != Enabled then Decision(false, EffectHalted, mode, refs')
      else if !(Needed(r) <= KNOWN_SWITCHES) then Decision(false, InvalidSwitches, mode, refs')
      else CheckSwitches(s, SortedKeys(Needed(r)), mode, refs')
  }

  /** The switches in their sorted order; the first that is not open decides. */
  function CheckSwitches(s: Snapshot, switches: seq<string>, mode: Mode, refs: Sources): Decision<Sources> {
    if switches == [] then Decision(true, AllowedReason, mode, refs)
    else
      var k := switches[0];
      if k !in s.switches || !s.switches[k].Valid() then Decision(false, InvalidSwitch, mode, refs)
      else
        var refs' := refs + multiset{SwitchSource(s.switches[k].revisionRef)};
        if s.switches[k].headState != Enabled then Decision(false, SwitchHalted, mode, refs')
        else CheckSwitches(s, switches[1..], mode, refs')
  }

  /** What the resolver answers: the decision, with its sources sorted. */
  // ----- what must be open, by tables -----

  /** The modes, lowest first. */
  const MODES := [Disabled, ReadOnly, Shadow, LiveConfirmed, LiveAutonomous]

  /** The modes under which an effect may take a route. */
  function Admitting(e: Effect, route: Route): set<Mode> {
    match (e, route)
    case (ExternalRead, NoRoute) => {ReadOnly, Shadow, LiveConfirmed, LiveAutonomous}
    case (OperationIntent, NoRoute) => {Shadow, LiveConfirmed, LiveAutonomous}
    case (ExactConfirmation, ExactRoute) => {LiveConfirmed, LiveAutonomous}
    case (BrokerMutation, ExactRoute) => {LiveConfirmed, LiveAutonomous}
    case (BrokerMutation, AutonomousRoute) => {LiveAutonomous}
    case _ => {}
  }

  /** The effect ceilings that cover an effect. */
  function Covering(e: Effect): set<Effect> {
    match e
    case ExternalRead => {ExternalRead, OperationIntent, ExactConfirmation, BrokerMutation}
    case OperationIntent => {OperationIntent, ExactConfirmation, BrokerMutation}
    case ExactConfirmation => {ExactConfirmation, BrokerMutation}
    case BrokerMutation => {BrokerMutation}
    case _ => {}
  }

  /** The switches an effect needs on a route, whatever the caller asks for. */
  function NeedsSwitches(e: Effect, route: Route): set<string> {
    match (e, route)
    case (ExternalRead, _) => {"capability_external_execution"}
    case (OperationIntent, _) => {"agent_operation_emission"}
    case (ExactConfirmation, _) => {"exact_confirmation_live"}
    case (BrokerMutation, ExactRoute) => {"agent_operation_emission", "exact_confirmation_live"}
    case (BrokerMutation, AutonomousRoute) =>
      {"agent_operation_emission", "autonomous_live", "delegation_activation"}
    case (BrokerMutation, _) => {"agent_operation_emission"}
    case _ => {}
  }

  function InstalledSwitches(): set<string> {
    {"agent_operation_emission", "agent_release_activation", "capability_external_execution", "strategy_activation",
     "grace_publication", "delegation_activation", "shadow_integration", "exact_confirmation_live", "autonomous_live",
     "product_equity", "product_option", "product_crypto"}
  }

  /** Revision and head are both sound and agree in subject, state and reference. */
  predicate Coherent<S(==)>(b: Binding<S>) {
    && b.revisionOk && b.headOk && b.revisionSubject == b.headSubject && b.revisionState == b.headState
    && b.revisionRef == b.headRef
  }

  predicate Opens(b: Binding<Gate>) {
    Coherent(b) && b.headState == Enabled
  }

  /** Everything a request for an effect needs: head and ceiling each admit it. */
  ghost predicate EffectMayPass(s: Snapshot, r: Request) {
    && s.mode.Some? && Coherent(s.mode.value) && s.effectCeiling in Covering(r.effect)
    && s.mode.value.headState in Admitting(r.effect, r.route) && s.modeCeiling in Admitting(r.effect, r.route)
    && r.effect in s.effects && Opens(s.effects[r.effect])
    && forall k :: k in r.required || k in NeedsSwitches(r.effect, r.route) ==>
         k in InstalledSwitches() && k in s.switches && Opens(s.switches[k])
  }

  ghost predicate MayPass(s: Snapshot, r: Request, now: int) {
    && now != 0 && s.observedAt != 0 && s.freshUntil != 0 && s.observedAt <= now < s.freshUntil
    && !r.effect.OtherEffect? && !r.route.OtherRoute? && !s.modeCeiling.OtherMode? && !s.effectCeiling.OtherEffect?
    && if r.effect == NoEffect then r.route == NoRoute && r.required == [] else EffectMayPass(s, r)
  }

  lemma {:induction false} AdmittedByBoth(head: Mode, ceiling: Mode, e: Effect, route: Route)
    requires !ceiling.OtherMode?
    ensures ModeAllows(Lesser(head, Effective(ceiling)), e, route) <==>
      head in Admitting(e, route) && ceiling in Admitting(e, route)
  {
  }

  lemma {:induction false} CoveredIff(e: Effect, ceiling: Effect)
    requires e != NoEffect && !e.OtherEffect? && !ceiling.OtherEffect?
    ensures EffectRank(e) <= EffectRank(ceiling) <==> ceiling in Covering(e)
  {
  }

  lemma {:induction false} MandatoryIs(e: Effect, route: Route)
    ensures Elements(Mandatory(e, route)) == NeedsSwitches(e, route)
    ensures KNOWN_SWITCHES == InstalledSwitches()
  {
  }

  lemma {:induction false} SwitchesIff(s: Snapshot, r: Request)
    ensures Needed(r) <= KNOWN_SWITCHES && (forall k :: k in Needed(r) ==> GateOpen(s.switches, k)) <==>
      forall k :: k in r.required || k in NeedsSwitches(r.effect, r.route) ==>
        k in InstalledSwitches() && k in s.switches && Opens(s.switches[k])
  {
    hide Mandatory, NeedsSwitches, InstalledSwitches;
    MandatoryIs(r.effect, r.route);
    forall k
      ensures k in Needed(r) <==> k in r.required || k in NeedsSwitches(r.effect, r.route)
      ensures GateOpen(s.switches, k) <==> k in s.switches && Opens(s.switches[k])
    {
    }
  }

  /** The answer to a request is yes exactly when all of this is open. */
  lemma {:induction false} PassesIff(s: Snapshot, r: Request, now: int)
    ensures Allowed(s, r, now) <==> MayPass(s, r, now)
  {
    hide ModeAllows, Lesser, EffectRank, Admitting, Covering, Needed, NeedsSwitches, InstalledSwitches;
    SwitchesIff(s, r);
    if s.mode.Some? && CeilingsValid(s) && !r.effect.OtherEffect? && r.effect != NoEffect {
      AdmittedByBoth(s.mode.value.headState, s.modeCeiling, r.effect, r.route);
      CoveredIff(r.effect, s.effectCeiling);
    }
  }

  /** The reported mode of a request that got as far as the mode head: the lower one of
      head and deployment ceiling; a head outside the table is reported as it is, and an
      unset ceiling counts as disabled. */
  lemma {:induction false} ReportedMode(s: Snapshot, r: Request, now: int, i: nat, j: nat)
    requires i < 5 && j < 5 && s.mode.Some? && (s.modeCeiling == MODES[j] || (s.modeCeiling == Unset && j == 0))
    requires Decide(s, r, now).refs != multiset{}
    ensures s.mode.value.headState == MODES[i] ==> Decide(s, r, now).mode == MODES[if i <= j then i else j]
    ensures s.mode.value.headState !in MODES ==> Decide(s, r, now).mode == s.mode.value.headState
  {
    hide Fresh, CeilingsValid, ModeAllows, EffectRank, Needed, CheckSwitches, SortedKeys;
    DecidedMode(s, r, now);
    RankOf(i);
    RankOf(j);
    if s.mode.value.headState !in MODES {
      assert ModeRank(s.mode.value.headState) == -1 by {
        OutsideTable(s.mode.value.headState);
      }
    }
  }

  lemma {:induction false} RankOf(i: nat)
    requires i < 5
    ensures ModeRank(MODES[i]) == i && !MODES[i].OtherMode? && MODES[i] != Unset
  {
  }

  lemma {:induction false} OutsideTable(m: Mode)
    requires m !in MODES
    ensures ModeRank(m) == -1
  {
    assert MODES[0] in MODES && MODES[1] in MODES && MODES[2] in MODES && MODES[3] in MODES && MODES[4] in MODES;
  }

  lemma {:induction false} DecidedMode(s: Snapshot, r: Request, now: int)
    requires s.mode.Some? && Decide(s, r, now).refs != multiset{}
    ensures Decide(s, r, now).mode == Lesser(s.mode.value.headState, Effective(s.modeCeiling))
  {
    hide Fresh, CeilingsValid, ModeAllows, EffectRank, Needed, CheckSwitches, SortedKeys;
    if Fresh(s, r, now) && CeilingsValid(s) && r.effect != NoEffect && s.mode.value.Valid() {
      SwitchesKeepMode(s, SortedKeys(Needed(r)), EffectiveMode(s),
                       multiset{ModeSource(s.mode.value.revisionRef)}
                       + if r.effect in s.effects then multiset{EffectSource(s.effects[r.effect].revisionRef)}
                         else multiset{});
    }
  }

  lemma {:induction false} SwitchesKeepMode(s: Snapshot, switches: seq<string>, mode: Mode, refs: Sources)
    ensures CheckSwitches(s, switches, mode, refs).mode == mode
  {
    if switches != [] && switches[0] in s.switches {
      SwitchesKeepMode(s, switches[1..], mode, refs + multiset{SwitchSource(s.switches[switches[0]].revisionRef)});
    }
  }

  ghost predicate Answers(d: Decision<seq<Source>>, spec: Decision<Sources>) {
    && d.allowed == spec.allowed && d.reason == spec.reason && d.mode == spec.mode
    && multiset(d.refs) == spec.refs && SourcesSorted(d.refs)
  }

  method Resolve(s: Snapshot, r: Request, now: int) returns (d: Decision<seq<Source>>)
    ensures Answers(d, Decide(s, r, now))
    ensures d.allowed <==> MayPass(s, r, now)
  {
    AllowedIff(s, r, now);
    PassesIff(s, r, now);
    if !Fresh(s, r, now) {
      return Decision(false, StaleSnapshot, Disabled, []);
    }
    if !CeilingsValid(s) {
      return Decision(false, InvalidCeiling, Disabled, []);
    }
    if r.effect == NoEffect {
      if r.route != NoRoute || r.required != [] {
        return Decision(false, InvalidNoEffect, Disabled, []);
      }
      return Decision(true, NoEffectNeeded, Disabled, []);
    }
    if s.mode.None? || !s.mode.value.Valid() {
      return Decision(false, InvalidMode, Disabled, []);
    }
    d := ResolveEffect(s, r);
    var refs := SortSources(d.refs);
    d := d.(refs := refs);
  }

  /** The part of Resolve behind a valid mode head, its sources not yet sorted. */
  method ResolveEffect(s: Snapshot, r: Request) returns (d: Decision<seq<Source>>)
    requires s.mode.Some?
    ensures Unsorted(d) == DecideEffect(s, r)
  {
    var mode, refs := EffectiveMode(s), [ModeSource(s.mode.value.revisionRef)];
    if EffectRank(r.effect) > EffectRank(s.effectCeiling) {
      return Decision(false, EffectAboveCeiling, mode, refs);
    }
    if !ModeAllows(mode, r.effect, r.route) {
      return Decision(false, ModeOrRouteDenied, mode, refs);
    }
    if r.effect !in s.effects || !s.effects[r.effect].Valid() {
      return Decision(false, InvalidEffect, mode, refs);
    }
    refs := refs + [EffectSource(s.effects[r.effect].revisionRef)];
    if s.effects[r.effect].headState != Enabled {
      return Decision(false, EffectHalted, mode, refs);
    }
    var ok, required := RequiredSwitches(r);
    if !ok {
      return Decision(false, InvalidSwitches, mode, refs);
    }
    d := ResolveSwitches(s, required, mode, refs);
  }

  function Unsorted(d: Decision<seq<Source>>): Decision<Sources> {
    Decision(d.allowed, d.reason, d.mode, multiset(d.refs))
  }

  method ResolveSwitches(s: Snapshot, required: seq<string>, mode: Mode, refs0: seq<Source>)
      returns (d: Decision<seq<Source>>)
    ensures Unsorted(d) == CheckSwitches(s, required, mode, multiset(refs0))
  {
    var refs := refs0;
    var i := 0;
    while i < |required|
      invariant 0 <= i <= |required|
      invariant CheckSwitches(s, required, mode, multiset(refs0))
        == CheckSwitches(s, required[i..], mode, multiset(refs))
    {
      var k := required[i];
      assert required[i..][1..] == required[i + 1..];
      if k !in s.switches || !s.switches[k].Valid() {
        return Decision(false, InvalidSwitch, mode, refs);
      }
      refs := refs + [SwitchSource(s.switches[k].revisionRef)];
      if s.switches[k].headState != Enabled {
        return Decision(false, SwitchHalted, mode, refs);
      }
      i := i + 1;
    }
    d := Decision(true, AllowedReason, mode, refs);
  }

  // ----- the order of the sources -----

  function TypeRank(a: Source): int {
    match a
    case EffectSource(_) => 0
    case SwitchSource(_) => 1
    case ModeSource(_) => 2
  }

  /** By record type, then by record ID. */
  predicate SourceBefore(a: Source, b: Source) {
    TypeRank(a) < TypeRank(b) || (TypeRank(a) == TypeRank(b) && Before(a.ref.id, b.ref.id))
  }

  function RecordType(a: Source): string {
    match a
    case EffectSource(_) => "effect_class_revision"
    case SwitchSource(_) => "kill_switch_revision"
    case ModeSource(_) => "platform_mode_revision"
  }

  lemma {:induction false} FirstLetters(s: string, t: string)
    requires s != "" && t != "" && s[0] < t[0] && t[0] < '\U{80}'
    ensures Before(s, t)
  {
    OrdersAgree(s, t);
  }

  /** Sources are ordered by the name of their record type, and then by their ID. */
  lemma {:induction false} SourceBeforeIff(a: Source, b: Source)
    ensures SourceBefore(a, b) <==>
      Before(RecordType(a), RecordType(b)) || (RecordType(a) == RecordType(b) && Before(a.ref.id, b.ref.id))
  {
    hide Before;
    FirstLetters("effect_class_revision", "kill_switch_revision");
    FirstLetters("effect_class_revision", "platform_mode_revision");
    FirstLetters("kill_switch_revision", "platform_mode_revision");
    BeforeIsOrder(RecordType(a), RecordType(b), RecordType(a));
  }

  ghost predicate SourcesSorted(a: seq<Source>) {
    forall i, j :: 0 <= i < j < |a| ==> !SourceBefore(a[j], a[i])
  }

  function InsertSource(a: seq<Source>, x: Source): (r: seq<Source>)
    ensures multiset(r) == multiset(a) + multiset{x}
  {
    if a == [] then [x]
    else if SourceBefore(x, a[0]) then [x] + a
    else
      assert a == [a[0]] + a[1..];
      [a[0]] + InsertSource(a[1..], x)
  }

  method SortSources(refs: seq<Source>) returns (sorted: seq<Source>)
    ensures SourcesSorted(sorted) && multiset(sorted) == multiset(refs)
  {
    sorted := [];
    for i := 0 to |refs|
      invariant SourcesSorted(sorted) && multiset(sorted) == multiset(refs[..i])
    {
      assert refs[..i + 1] == refs[..i] + [refs[i]];
      InsertSorts(sorted, refs[i]);
      sorted := InsertSource(sorted, refs[i]);
    }
    assert refs[..|refs|] == refs;
  }

  /** Not being behind is transitive and total. */
  lemma {:induction false} SourceOrder(a: Source, b: Source, c: Source)
    ensures !SourceBefore(a, b) || !SourceBefore(b, a)
    ensures !SourceBefore(b, a) && !SourceBefore(c, b) ==> !SourceBefore(c, a)
    ensures !SourceBefore(a, b) && !SourceBefore(b, a) ==> TypeRank(a) == TypeRank(b) && a.ref.id == b.ref.id
  {
    BeforeIsOrder(a.ref.id, b.ref.id, c.ref.id);
    BeforeIsOrder(c.ref.id, a.ref.id, b.ref.id);
    BeforeIsOrder(b.ref.id, c.ref.id, a.ref.id);
  }

  lemma {:induction false} ConsSorted(x: Source, a: seq<Source>)
    requires SourcesSorted(a) && forall y :: y in a ==> !SourceBefore(y, x)
    ensures SourcesSorted([x] + a)
  {
  }

  lemma {:induction false} InsertSorts(a: seq<Source>, x: Source)
    requires SourcesSorted(a)
    ensures SourcesSorted(InsertSource(a, x))
  {
    if a != [] {
      var rest := InsertSource(a[1..], x);
      if SourceBefore(x, a[0]) {
        forall y | y in a
          ensures !SourceBefore(y, x)
        {
          SourceOrder(x, a[0], y);
        }
        ConsSorted(x, a);
      } else {
        InsertSorts(a[1..], x);
        forall y | y in rest
          ensures !SourceBefore(y, a[0])
        {
          assert y in multiset(rest);
          assert y == x || y in multiset(a[1..]);
        }
        ConsSorted(a[0], rest);
      }
    }
  }

  /** Type and ID tell the sources of a list apart. */
  ghost predicate ToldApart(a: seq<Source>) {
    forall x, y :: x in a && y in a && TypeRank(x) == TypeRank(y) && x.ref.id == y.ref.id ==> x == y
  }

  /** Sources of different type or ID have one sorted listing only. */
  lemma {:induction false} SortedListingUnique(a: seq<Source>, b: seq<Source>)
    requires SourcesSorted(a) && SourcesSorted(b) && multiset(a) == multiset(b) && ToldApart(a)
    ensures a == b
  {
    assert |multiset(a)| == |a| && |multiset(b)| == |b|;
    if a != [] {
      hide SourceBefore;
      SameFirst(a, b);
      assert a == [a[0]] + a[1..] && b == [b[0]] + b[1..];
      assert multiset(a[1..]) == multiset(a) - multiset{a[0]};
      assert multiset(b[1..]) == multiset(b) - multiset{b[0]};
      SortedListingUnique(a[1..], b[1..]);
    }
  }

  lemma {:induction false} SameFirst(a: seq<Source>, b: seq<Source>)
    requires a != [] && b != [] && SourcesSorted(a) && SourcesSorted(b) && multiset(a) == multiset(b) && ToldApart(a)
    ensures a[0] == b[0]
  {
    assert a[0] in multiset(b) && b[0] in multiset(a);
    var i :| 0 <= i < |b| && b[i] == a[0];
    var j :| 0 <= j < |a| && a[j] == b[0];
    if i > 0 && j > 0 {
      SourceOrder(a[0], b[0], a[0]);
    }
  }

  /** So the answer is determined when the sources differ in type or ID. */
  lemma {:induction false} AnswerUnique(d: Decision<seq<Source>>, e: Decision<seq<Source>>, spec: Decision<Sources>)
    requires Answers(d, spec) && Answers(e, spec) && ToldApart(d.refs)
    ensures d == e
  {
    SortedListingUnique(d.refs, e.refs);
  }

  // ----- what the resolver guarantees -----

  lemma {:induction false} SwitchesOpenIff(s: Snapshot, switches: seq<string>, mode: Mode, refs: Sources)
    ensures CheckSwitches(s, switches, mode, refs).allowed <==> forall k :: k in switches ==> GateOpen(s.switches, k)
  {
    if switches != [] {
      var k := switches[0];
      if GateOpen(s.switches, k) {
        SwitchesOpenIff(s, switches[1..], mode, refs + multiset{SwitchSource(s.switches[k].revisionRef)});
      }
      assert forall j :: j in switches <==> j == k || j in switches[1..];
    }
  }

  /** An allow holds exactly when every gate is present, valid and open. */
  lemma {:induction false} AllowedIff(s: Snapshot, r: Request, now: int)
    ensures Decide(s, r, now).allowed <==> Allowed(s, r, now)
  {
    if r.effect != NoEffect && s.mode.Some? && r.effect in s.effects {
      var refs := multiset{ModeSource(s.mode.value.revisionRef)}
        + multiset{EffectSource(s.effects[r.effect].revisionRef)};
      NeededOpenIff(s, r, EffectiveMode(s), refs);
    }
  }

  lemma {:induction false} NeededOpenIff(s: Snapshot, r: Request, mode: Mode, refs: Sources)
    ensures CheckSwitches(s, SortedKeys(Needed(r)), mode, refs).allowed
       <==> forall k :: k in Needed(r) ==> GateOpen(s.switches, k)
  {
    var switches := SortedKeys(Needed(r));
    assert forall k :: k in Needed(r) <==> k in Elements(switches);
    SwitchesOpenIff(s, switches, mode, refs);
  }

  /** Asking for the same switches in another order, or more than once, changes
      nothing of the decision. */
  lemma {:induction false} RequestOrderIrrelevant(s: Snapshot, r: Request, required: seq<string>, now: int)
    requires Elements(required) == Elements(r.required)
    ensures Decide(s, r.(required := required), now) == Decide(s, r, now)
  {
    assert Needed(r.(required := required)) == Needed(r);
    NoneOfNone(required, r.required);
    NoneOfNone(r.required, required);
  }

  /** t is s with ceilings or mode lowered, and heads halted or removed. */
  ghost predicate Tightened(s: Snapshot, t: Snapshot) {
    && t.observedAt == s.observedAt && t.freshUntil == s.freshUntil
    && ModeRank(Effective(t.modeCeiling)) <= ModeRank(Effective(s.modeCeiling))
    && EffectRank(t.effectCeiling) <= EffectRank(s.effectCeiling)
    && (t.mode.Some? && t.mode.value.Valid() ==>
          s.mode.Some? && s.mode.value.Valid() && ModeRank(t.mode.value.headState) <= ModeRank(s.mode.value.headState))
    && (forall e :: GateOpen(t.effects, e) ==> GateOpen(s.effects, e))
    && (forall k :: GateOpen(t.switches, k) ==> GateOpen(s.switches, k))
  }

  /** Tightening the snapshot or asking for more switches never turns a denial into an
      allow, with one exception: a ceiling that names no known effect denies everything,
      and lowering it to a known one lifts that. */
  lemma {:induction false} ResolveMonotone(s: Snapshot, t: Snapshot, r: Request, more: seq<string>, now: int)
    requires Tightened(s, t) && Elements(r.required) <= Elements(more)
    requires Decide(t, r.(required := more), now).allowed
    ensures Decide(s, r, now).allowed <==> !s.effectCeiling.OtherEffect?
  {
    var q := r.(required := more);
    AllowedIff(t, q, now);
    AllowedIff(s, r, now);
    if r.effect == NoEffect {
      NoneOfNone(r.required, more);
    } else {
      LesserMonotone(t.mode.value.headState, Effective(t.modeCeiling),
                     s.mode.value.headState, Effective(s.modeCeiling));
      ModeAllowsMore(EffectiveMode(t), EffectiveMode(s), r.effect, r.route);
    }
  }

  /** The exception happens: an allow that an unknown effect ceiling above it denies. */
  lemma {:induction false} UnknownCeilingDenies(t: Snapshot, r: Request, now: int, name: string)
    requires Decide(t, r, now).allowed
    ensures var s := t.(effectCeiling := OtherEffect(name)); Tightened(s, t) && !Decide(s, r, now).allowed
  {
    var s := t.(effectCeiling := OtherEffect(name));
    AllowedIff(t, r, now);
    AllowedIff(s, r, now);
  }

  lemma {:induction false} NoneOfNone(a: seq<string>, b: seq<string>)
    requires Elements(a) <= Elements(b)
    ensures b == [] ==> a == []
  {
    if a != [] {
      assert a[0] in Elements(b);
    }
  }

  lemma {:induction false} LesserMonotone(a: Mode, b: Mode, c: Mode, d: Mode)
    requires ModeRank(a) <= ModeRank(c) && ModeRank(b) <= ModeRank(d)
    ensures ModeRank(Lesser(a, b)) <= ModeRank(Lesser(c, d))
  {
  }

  lemma {:induction false} ModeAllowsMore(a: Mode, b: Mode, e: Effect, route: Route)
    requires ModeRank(a) <= ModeRank(b) && ModeAllows(a, e, route)
    ensures ModeAllows(b, e, route)
  {
  }

  /** A head whose mode is unset allows nothing, as a disabled one does, but the
      decision reports the mode as unset. */
  lemma {:induction false} UnsetModeDenies(s: Snapshot, r: Request, now: int)
    requires s.mode.Some? && s.mode.value.headState.Unset? && r.effect != NoEffect
    ensures !Decide(s, r, now).allowed
    ensures EffectiveMode(s) == Unset
  {
    AllowedIff(s, r, now);
  }

  // ----- heads under the key of another subject -----

  function EffectName(e: Effect): string {
    match e
    case NoEffect => "none"
    case ExternalRead => "external_read"
    case OperationIntent => "operation_intent"
    case ExactConfirmation => "exact_confirmation"
    case BrokerMutation => "broker_mutation"
    case OtherEffect(name) => name
  }

  /** The heads this allow rests on are those of its own effect and switches. */
  ghost predicate RestsOnOwn(s: Snapshot, r: Request) {
    && (r.effect in s.effects ==> s.effects[r.effect].headSubject == EffectName(r.effect))
    && (forall k :: k in Needed(r) && k in s.switches ==> s.switches[k].headSubject == k)
  }

  ghost predicate EveryAllowOnOwn(s: Snapshot, now: int) {
    forall r: Request :: r.effect != NoEffect && Decide(s, r, now).allowed ==> RestsOnOwn(s, r)
  }

  /** Nothing in the snapshot stands in the way of this effect on this route. */
  ghost predicate Attainable(s: Snapshot, e: Effect, route: Route) {
    && s.mode.Some? && s.mode.value.Valid() && EffectRank(e) <= EffectRank(s.effectCeiling)
    && ModeAllows(EffectiveMode(s), e, route) && GateOpen(s.effects, e)
    && forall k :: k in Mandatory(e, route) ==> GateOpen(s.switches, k)
  }

  /** Some request with an effect is allowed. */
  ghost predicate InUse(s: Snapshot, now: int) {
    && CeilingsValid(s) && now != 0 && s.observedAt != 0 && s.freshUntil != 0 && s.observedAt <= now < s.freshUntil
    && exists e, route :: Attainable(s, e, route)
  }

  /** Every open gate a request may rest on is filed under its own subject. */
  ghost predicate FiledOwn(s: Snapshot) {
    && (forall k :: k in KNOWN_SWITCHES && GateOpen(s.switches, k) ==> s.switches[k].headSubject == k)
    && (forall e, route :: Attainable(s, e, route) ==> s.effects[e].headSubject == EffectName(e))
  }

  /** Heads are looked up by the key they are filed under, and their own subject is
      only compared with that of their revision. So every allow rests on its own heads
      exactly when no request with an effect is allowed at all, or every open gate is
      filed under its own subject. */
  lemma {:induction false} AllowsRestOnOwnIff(s: Snapshot, now: int)
    ensures EveryAllowOnOwn(s, now) <==> (InUse(s, now) ==> FiledOwn(s))
  {
    if InUse(s, now) && EveryAllowOnOwn(s, now) {
      var e, route :| Attainable(s, e, route);
      forall k | k in KNOWN_SWITCHES && GateOpen(s.switches, k)
        ensures s.switches[k].headSubject == k
      {
        AttainedWith(s, e, route, [k], now);
        assert RestsOnOwn(s, Request(e, route, [k]));
        assert k in Needed(Request(e, route, [k]));
      }
      forall e, route | Attainable(s, e, route)
        ensures s.effects[e].headSubject == EffectName(e)
      {
        AttainedWith(s, e, route, [], now);
        assert RestsOnOwn(s, Request(e, route, []));
      }
    }
    if InUse(s, now) ==> FiledOwn(s) {
      forall r: Request | r.effect != NoEffect && Decide(s, r, now).allowed
        ensures RestsOnOwn(s, r)
      {
        AllowedIff(s, r, now);
        assert Attainable(s, r.effect, r.route);
      }
    }
  }

  /** An attainable effect is allowed, whatever open switches are asked for besides. */
  lemma {:induction false} AttainedWith(s: Snapshot, e: Effect, route: Route, required: seq<string>, now: int)
    requires InUse(s, now) && Attainable(s, e, route)
    requires forall k :: k in required ==> k in KNOWN_SWITCHES && GateOpen(s.switches, k)
    ensures e != NoEffect && Decide(s, Request(e, route, required), now).allowed
  {
    var r := Request(e, route, required);
    assert Elements(Mandatory(e, route)) <= KNOWN_SWITCHES;
    AllowedIff(s, r, now);
  }

  /** A head for another switch, filed under the needed one, is accepted. */
  lemma {:induction false} MisfiledHeadAccepted()
    ensures var mode := Binding(true, true, "global", "global", ReadOnly, ReadOnly, Ref("m", "1"), Ref("m", "1"));
      var gate := Binding(true, true, "external_read", "external_read", Enabled, Enabled, Ref("e", "1"), Ref("e", "1"));
      var other := Binding(true, true, "product_crypto", "product_crypto", Enabled, Enabled,
                           Ref("s", "1"), Ref("s", "1"));
      var s := Snapshot(ReadOnly, ExternalRead, 1, 3, Some(mode), map[ExternalRead := gate],
                        map[EXTERNAL_EXECUTION := other]);
      Decide(s, Request(ExternalRead, NoRoute, []), 2).allowed
  {
    var mode := Binding(true, true, "global", "global", ReadOnly, ReadOnly, Ref("m", "1"), Ref("m", "1"));
    var gate := Binding(true, true, "external_read", "external_read", Enabled, Enabled, Ref("e", "1"), Ref("e", "1"));
    var other := Binding(true, true, "product_crypto", "product_crypto", Enabled, Enabled,
                         Ref("s", "1"), Ref("s", "1"));
    var s := Snapshot(ReadOnly, ExternalRead, 1, 3, Some(mode), map[ExternalRead := gate],
                      map[EXTERNAL_EXECUTION := other]);
    var r := Request(ExternalRead, NoRoute, []);
    assert Needed(r) == {EXTERNAL_EXECUTION} && EXTERNAL_EXECUTION in KNOWN_SWITCHES;
    assert mode.Valid() && GateOpen(s.effects, ExternalRead) && GateOpen(s.switches, EXTERNAL_EXECUTION);
    assert EffectiveMode(s) == ReadOnly && ModeAllows(ReadOnly, ExternalRead, NoRoute);
    assert Fresh(s, r, 2) && CeilingsValid(s);
    AllowedIff(s, r, 2);
  }
}
