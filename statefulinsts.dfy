/** The beacon's stateful instruction pipeline (beaconstatefulinsts.go):
  * actions carried by shard blocks are filtered, routed by metadata type,
  * grouped per shard and handed to instruction builders in a fixed order:
  * issuing requests first, then PDE trades (sorted by fee), withdrawals and
  * contributions, then the four portal families, then header relaying
  * (sorted by block height).
  *
  * The builders themselves (buildInstructionsForIssuingReq,
  * buildInstructionsForPDETrade, ...) and the base64/JSON codecs are not part
  * of this model: a builder is a parameter that takes a working state and a
  * call and returns the next state and either instructions or an error; a
  * codec is a parameter that decodes or encodes one action. */
module StatefulInsts {
  import opened Common
  import opened Grouping
  import opened Sorting
  import opened ActionSort

  // ---------------------------------------------------------------------
  // Collecting the stateful actions of shard blocks

  /** Committee actions (blockchain's SetAction, StakeAction, SwapAction,
    * RandomAction, AssignAction) are never stateful. */
  const SetAction: string := "set"
  const StakeAction: string := "stake"
  const SwapAction: string := "swap"
  const RandomAction: string := "random"
  const AssignAction: string := "assign"

  predicate IsCommitteeAction(s: string)
  {
    s == SetAction || s == StakeAction || s == SwapAction || s == RandomAction || s == AssignAction
  }

  /** The ten metadata types whose actions the beacon processes statefully. */
  const StatefulMetaTypes: set<int> := {
    IssuingRequestMeta, IssuingETHRequestMeta, PDEContributionMeta, PDETradeRequestMeta,
    PDEWithdrawalRequestMeta, PortalCustodianDepositMeta, PortalUserRegisterMeta,
    PortalUserRequestPTokenMeta, PortalExchangeRatesMeta, RelayingHeaderMeta }

  /** The test collectStatefulActions applies to each shard instruction. */
  predicate IsStatefulAction(inst: Instruction)
  {
    |inst| >= 2 && !IsCommitteeAction(inst[0]) &&
    Atoi(inst[0]).Some? && Atoi(inst[0]).value in StatefulMetaTypes
  }

  /** collectStatefulActions: keep, in order, the instructions that are
    * stateful actions. */
  method CollectStatefulActions(insts: seq<Instruction>) returns (r: seq<Instruction>)
    ensures r == Filter(insts, IsStatefulAction)
  {
    r := [];
    var i := 0;
    while i < |insts|
      invariant 0 <= i <= |insts|
      invariant r == Filter(insts[..i], IsStatefulAction)
    {
      var inst := insts[i];
      assert insts[..i + 1][..i] == insts[..i];
      if |inst| < 2 {
      } else if IsCommitteeAction(inst[0]) {
      } else {
        var metaType := Atoi(inst[0]);
        if metaType.Some? && metaType.value in StatefulMetaTypes {
          r := r + [inst];
        }
      }
      i := i + 1;
    }
    assert insts[..i] == insts;
  }

  /** The collected actions are exactly the stateful ones, each as often as
    * it occurs, in their original relative order. */
  lemma CollectedActionsSpec(insts: seq<Instruction>, a: seq<Instruction>, b: seq<Instruction>, x: Instruction)
    ensures x in Filter(insts, IsStatefulAction) <==> x in insts && IsStatefulAction(x)
    ensures multiset(Filter(insts, IsStatefulAction))[x] == if IsStatefulAction(x) then multiset(insts)[x] else 0
    ensures Filter(a + b, IsStatefulAction) == Filter(a, IsStatefulAction) + Filter(b, IsStatefulAction)
  {
    FilterMember(insts, IsStatefulAction, x);
    FilterMultiset(insts, IsStatefulAction, x);
    FilterAppend(a, b, IsStatefulAction);
  }

  /** The committee-action test is redundant with the integer parse: none of
    * those words is the decimal text of an integer. */
  lemma CommitteeActionsNeverParse(s: string)
    requires IsCommitteeAction(s)
    ensures Atoi(s).None?
  {
    AtoiNeedsDigit(s);
  }

  // ---------------------------------------------------------------------
  // Routing by metadata type

  datatype Stage =
    | Issuing | IssuingETH
    | PdeTrade | PdeWithdrawal | PdeContribution
    | CustodianDeposit | PortingRequest | PTokenRequest | ExchangeRates
    | HeaderRelaying

  /** The builder family a stateful metadata type is routed to. */
  function StageOfMeta(meta: int): Option<Stage>
  {
    if meta == IssuingRequestMeta then Some(Issuing)
    else if meta == IssuingETHRequestMeta then Some(IssuingETH)
    else if meta == PDETradeRequestMeta then Some(PdeTrade)
    else if meta == PDEWithdrawalRequestMeta then Some(PdeWithdrawal)
    else if meta == PDEContributionMeta then Some(PdeContribution)
    else if meta == PortalCustodianDepositMeta then Some(CustodianDeposit)
    else if meta == PortalUserRegisterMeta then Some(PortingRequest)
    else if meta == PortalUserRequestPTokenMeta then Some(PTokenRequest)
    else if meta == PortalExchangeRatesMeta then Some(ExchangeRates)
    else if meta == RelayingHeaderMeta then Some(HeaderRelaying)
    else None
  }

  /** The metadata type each builder family is told it handles. */
  function MetaOfStage(st: Stage): int
  {
    match st
    case Issuing => IssuingRequestMeta
    case IssuingETH => IssuingETHRequestMeta
    case PdeTrade => PDETradeRequestMeta
    case PdeWithdrawal => PDEWithdrawalRequestMeta
    case PdeContribution => PDEContributionMeta
    case CustodianDeposit => PortalCustodianDepositMeta
    case PortingRequest => PortalUserRegisterMeta
    case PTokenRequest => PortalUserRequestPTokenMeta
    case ExchangeRates => PortalExchangeRatesMeta
    case HeaderRelaying => RelayingHeaderMeta
  }

  /** Exactly the stateful metadata types are routed, each to the family
    * that is told that same type. */
  lemma StageOfMetaSpec(meta: int, st: Stage)
    ensures StageOfMeta(meta).Some? <==> meta in StatefulMetaTypes
    ensures StageOfMeta(meta).Some? ==> MetaOfStage(StageOfMeta(meta).value) == meta
    ensures StageOfMeta(MetaOfStage(st)) == Some(st)
  {
  }

  /** The family of an action: its metadata type parsed from field 0. */
  function StageOf(a: Instruction): Option<Stage>
  {
    if |a| == 0 then None
    else match Atoi(a[0])
      case None => None
      case Some(m) => StageOfMeta(m)
  }

  /** Position of each family in the beacon's output. Both issuing kinds
    * are built during the first walk, interleaved. */
  function Phase(st: Stage): nat
  {
    match st
    case Issuing => 0
    case IssuingETH => 0
    case PdeTrade => 1
    case PdeWithdrawal => 2
    case PdeContribution => 3
    case CustodianDeposit => 4
    case PortingRequest => 5
    case PTokenRequest => 6
    case ExchangeRates => 7
    case HeaderRelaying => 8
  }

  predicate IsGroupedStage(st: Stage)
  {
    st != Issuing && st != IssuingETH && st != HeaderRelaying
  }

  function StageIs(st: Stage): Tagged<Instruction> -> bool
  {
    (t: Tagged<Instruction>) => StageOf(t.item) == Some(st)
  }

  function IsIssuingAction(t: Tagged<Instruction>): bool
  {
    StageOf(t.item) == Some(Issuing) || StageOf(t.item) == Some(IssuingETH)
  }

  // ---------------------------------------------------------------------
  // Builder calls and their fold

  /** One call of an instruction builder: which family, the action content
    * it is given and the shard it is told. */
  datatype Call = Call(stage: Stage, content: string, shard: Shard)

  /** What a builder returns: its next working state and either the
    * instructions it built or an error. */
  datatype Built<S> = Built(state: S, res: Result<seq<Instruction>>)

  /** The working state after a run of builder calls and the instructions
    * collected so far. */
  datatype Outcome<S> = Outcome(state: S, out: seq<Instruction>)

  /** Instructions a builder result contributes: none on error. */
  function Emitted(res: Result<seq<Instruction>>): seq<Instruction>
  {
    if res.Ok? then res.value else []
  }

  /** Running the builder over calls in order; a call whose builder fails
    * contributes no instruction (the beacon logs it and goes on), but its
    * state change is kept. */
  function Run<S>(build: (S, Call) -> Built<S>, s: S, calls: seq<Call>): Outcome<S>
  {
    if |calls| == 0 then Outcome(s, [])
    else
      var prev := Run(build, s, calls[..|calls| - 1]);
      var step := build(prev.state, calls[|calls| - 1]);
      Outcome(step.state, prev.out + Emitted(step.res))
  }

  /** Running two call lists one after the other is running their
    * concatenation. */
  lemma {:induction false} RunAppend<S>(build: (S, Call) -> Built<S>, s: S, a: seq<Call>, b: seq<Call>)
    ensures Run(build, s, a + b).state == Run(build, Run(build, s, a).state, b).state
    ensures Run(build, s, a + b).out == Run(build, s, a).out + Run(build, Run(build, s, a).state, b).out
    decreases |b|
  {
    if |b| == 0 {
      assert a + b == a;
    } else {
      var b' := b[..|b| - 1];
      assert (a + b)[..|a + b| - 1] == a + b';
      assert (a + b)[|a + b| - 1] == b[|b| - 1];
      RunAppend(build, s, a, b');
    }
  }

  /** A builder that never succeeds yields no instruction. */
  lemma {:induction false} RunAllFail<S>(build: (S, Call) -> Built<S>, s: S, calls: seq<Call>)
    requires forall s', c :: build(s', c).res.Err?
    ensures Run(build, s, calls).out == []
    decreases |calls|
  {
    if |calls| > 0 {
      RunAllFail(build, s, calls[..|calls| - 1]);
    }
  }

  /** The beacon's inner loop: call the builder on each call in order and
    * append what succeeds. */
  method RunCalls<S>(build: (S, Call) -> Built<S>, s: S, calls: seq<Call>)
    returns (s': S, out: seq<Instruction>)
    ensures Outcome(s', out) == Run(build, s, calls)
  {
    s', out := s, [];
    var i := 0;
    while i < |calls|
      invariant 0 <= i <= |calls|
      invariant Outcome(s', out) == Run(build, s, calls[..i])
    {
      assert calls[..i + 1][..i] == calls[..i];
      var step := build(s', calls[i]);
      s' := step.state;
      if step.res.Ok? {
        out := out + step.res.value;
      }
      i := i + 1;
    }
    assert calls[..i] == calls;
  }

  /** The content an action hands to its builder: field 1 (every routed
    * action has at least two fields, see WellFormedActions). */
  function Content(a: Instruction): string
  {
    if |a| >= 2 then a[1] else ""
  }

  /** The calls for a shard-tagged stream of one family: each action's
    * content and its shard. */
  function CallsOf(st: Stage, ts: seq<Tagged<Instruction>>): (r: seq<Call>)
    ensures |r| == |ts|
    ensures forall i :: 0 <= i < |ts| ==> r[i] == Call(st, Content(ts[i].item), ts[i].shard)
  {
    if |ts| == 0 then []
    else CallsOf(st, ts[..|ts| - 1]) + [Call(st, Content(ts[|ts| - 1].item), ts[|ts| - 1].shard)]
  }

  /** The issuing family of an issuing action. */
  function IssuingStage(a: Instruction): Stage
  {
    if StageOf(a) == Some(IssuingETH) then IssuingETH else Issuing
  }

  /** The issuing calls: each action is handed to the builder of its own
    * issuing kind. */
  function IssuingCalls(ts: seq<Tagged<Instruction>>): (r: seq<Call>)
    ensures |r| == |ts|
    ensures forall i :: 0 <= i < |ts| ==> r[i] == Call(IssuingStage(ts[i].item), Content(ts[i].item), ts[i].shard)
  {
    if |ts| == 0 then []
    else
      var t := ts[|ts| - 1];
      IssuingCalls(ts[..|ts| - 1]) + [Call(IssuingStage(t.item), Content(t.item), t.shard)]
  }

  predicate WellFormedActions(byShard: map<Shard, seq<Instruction>>)
  {
    forall k, a :: k in byShard && a in byShard[k] ==> |a| >= 2
  }

  lemma FlattenWellFormed(byShard: map<Shard, seq<Instruction>>)
    requires WellFormedActions(byShard)
    ensures forall t :: t in FlattenByShard(byShard) ==> t.shard in byShard && t.item in byShard[t.shard] && |t.item| >= 2
  {
    SortedShardsSpec(byShard.Keys);
    FlattenMembers(SortedShards(byShard.Keys), byShard);
  }

  lemma {:induction false} FlattenMembers(ks: seq<Shard>, m: map<Shard, seq<Instruction>>)
    ensures forall t :: t in ConcatTagged(ks, m) ==> t.shard in m && t.item in m[t.shard]
    decreases |ks|
  {
    if |ks| > 0 {
      FlattenMembers(ks[..|ks| - 1], m);
      var k := ks[|ks| - 1];
      if k in m {
        forall t | t in Tag(k, m[k]) ensures t.shard in m && t.item in m[t.shard] {
          var i :| 0 <= i < |Tag(k, m[k])| && Tag(k, m[k])[i] == t;
          assert m[k][i] == t.item;
        }
      }
    }
  }

  lemma FilterWellFormed(ts: seq<Tagged<Instruction>>, p: Tagged<Instruction> -> bool)
    requires forall t :: t in ts ==> |t.item| >= 2
    ensures forall t :: t in Filter(ts, p) ==> |t.item| >= 2 && p(t)
  {
    forall t | t in Filter(ts, p) ensures |t.item| >= 2 && p(t) {
      FilterMember(ts, p, t);
    }
  }

  /** What the first walk leaves for the later handlers: the PDE and
    * portal actions grouped per shard, and the relaying actions queued. */
  datatype Routed = Routed(
    trades: map<Shard, seq<Instruction>>,
    withdrawals: map<Shard, seq<Instruction>>,
    contributions: map<Shard, seq<Instruction>>,
    deposits: map<Shard, seq<Instruction>>,
    portings: map<Shard, seq<Instruction>>,
    ptokens: map<Shard, seq<Instruction>>,
    rates: map<Shard, seq<Instruction>>,
    relays: seq<Tagged<Instruction>>)

  /** The routing of a whole tagged stream, action by action. */
  function RouteSpec(ts: seq<Tagged<Instruction>>): Routed
  {
    if |ts| == 0 then Routed(map[], map[], map[], map[], map[], map[], map[], [])
    else RouteOne(RouteSpec(ts[..|ts| - 1]), ts[|ts| - 1])
  }

  /** The grouped actions of one family in a routing. */
  function GroupOf(r: Routed, st: Stage): map<Shard, seq<Instruction>>
    requires IsGroupedStage(st)
  {
    match st
    case PdeTrade => r.trades
    case PdeWithdrawal => r.withdrawals
    case PdeContribution => r.contributions
    case CustodianDeposit => r.deposits
    case PortingRequest => r.portings
    case PTokenRequest => r.ptokens
    case ExchangeRates => r.rates
  }

  /** A family's groups after one more action: the action joins its
    * shard's list when it belongs to the family. */
  function AddIf(m: map<Shard, seq<Instruction>>, t: Tagged<Instruction>, st: Stage): map<Shard, seq<Instruction>>
  {
    if StageOf(t.item) == Some(st) then GroupByShard(m, t.item, t.shard) else m
  }

  /** Routing one more action. */
  function RouteOne(r: Routed, t: Tagged<Instruction>): Routed
  {
    Routed(
      AddIf(r.trades, t, PdeTrade),
      AddIf(r.withdrawals, t, PdeWithdrawal),
      AddIf(r.contributions, t, PdeContribution),
      AddIf(r.deposits, t, CustodianDeposit),
      AddIf(r.portings, t, PortingRequest),
      AddIf(r.ptokens, t, PTokenRequest),
      AddIf(r.rates, t, ExchangeRates),
      r.relays + (if StageOf(t.item) == Some(HeaderRelaying) then [t] else []))
  }

  lemma FilterSnoc<T>(s: seq<T>, x: T, p: T -> bool)
    ensures Filter(s + [x], p) == Filter(s, p) + (if p(x) then [x] else [])
  {
    assert (s + [x])[..|s|] == s;
  }

  lemma GroupStreamSnoc<T>(ts: seq<Tagged<T>>, t: Tagged<T>)
    ensures GroupStream(ts + [t]) == GroupByShard(GroupStream(ts), t.item, t.shard)
  {
    assert (ts + [t])[..|ts|] == ts;
  }

  lemma FamilySnoc(ts: seq<Tagged<Instruction>>, t: Tagged<Instruction>, st: Stage)
    ensures GroupStream(Filter(ts + [t], StageIs(st))) == AddIf(GroupStream(Filter(ts, StageIs(st))), t, st)
  {
    FilterSnoc(ts, t, StageIs(st));
    assert StageIs(st)(t) == (StageOf(t.item) == Some(st));
    if StageOf(t.item) == Some(st) {
      assert Filter(ts + [t], StageIs(st)) == Filter(ts, StageIs(st)) + [t];
      GroupStreamSnoc(Filter(ts, StageIs(st)), t);
    } else {
      assert Filter(ts + [t], StageIs(st)) == Filter(ts, StageIs(st));
    }
  }

  lemma RouteSpecSnoc(ts: seq<Tagged<Instruction>>, t: Tagged<Instruction>)
    ensures RouteSpec(ts + [t]) == RouteOne(RouteSpec(ts), t)
  {
    assert (ts + [t])[..|ts|] == ts;
  }

  /** The routing holds each family's actions, in stream order, grouped
    * per shard, and the relaying actions in stream order. */
  lemma {:induction false} RouteSpecFamilies(ts: seq<Tagged<Instruction>>, st: Stage)
    ensures IsGroupedStage(st) ==> GroupOf(RouteSpec(ts), st) == GroupStream(Filter(ts, StageIs(st)))
    ensures RouteSpec(ts).relays == Filter(ts, StageIs(HeaderRelaying))
    decreases |ts|
  {
    if |ts| > 0 {
      var ts', t := ts[..|ts| - 1], ts[|ts| - 1];
      assert ts == ts' + [t];
      RouteSpecFamilies(ts', st);
      if IsGroupedStage(st) {
        FamilySnoc(ts', t, st);
      }
      FilterSnoc(ts', t, StageIs(HeaderRelaying));
      assert StageIs(HeaderRelaying)(t) == (StageOf(t.item) == Some(HeaderRelaying));
    }
  }

  /** Actions outside the grouped and relaying families leave the
    * routing unchanged. */
  lemma RouteOneSkips(r: Routed, t: Tagged<Instruction>)
    requires StageOf(t.item).None? || IsIssuingAction(t)
    ensures RouteOne(r, t) == r
  {
  }

  /** The issuing calls of one more action. */
  lemma IssuingCallsSnoc(ts: seq<Tagged<Instruction>>, t: Tagged<Instruction>)
    ensures IssuingCalls(ts + [t]) == IssuingCalls(ts) + [Call(IssuingStage(t.item), Content(t.item), t.shard)]
  {
    assert (ts + [t])[..|ts|] == ts;
  }

  /** Running one more call. */
  lemma RunSnoc<S>(build: (S, Call) -> Built<S>, s: S, calls: seq<Call>, c: Call)
    ensures Run(build, s, calls + [c]) ==
      Outcome(build(Run(build, s, calls).state, c).state,
              Run(build, s, calls).out + Emitted(build(Run(build, s, calls).state, c).res))
  {
    assert (calls + [c])[..|calls|] == calls;
  }

  /** Routing an action whose family is known: only that family's groups
    * change. */
  lemma RouteOneAt(r: Routed, t: Tagged<Instruction>, st: Stage)
    requires StageOf(t.item) == Some(st)
    ensures RouteOne(r, t) == Routed(
              if st == PdeTrade then GroupByShard(r.trades, t.item, t.shard) else r.trades,
              if st == PdeWithdrawal then GroupByShard(r.withdrawals, t.item, t.shard) else r.withdrawals,
              if st == PdeContribution then GroupByShard(r.contributions, t.item, t.shard) else r.contributions,
              if st == CustodianDeposit then GroupByShard(r.deposits, t.item, t.shard) else r.deposits,
              if st == PortingRequest then GroupByShard(r.portings, t.item, t.shard) else r.portings,
              if st == PTokenRequest then GroupByShard(r.ptokens, t.item, t.shard) else r.ptokens,
              if st == ExchangeRates then GroupByShard(r.rates, t.item, t.shard) else r.rates,
              r.relays + (if st == HeaderRelaying then [t] else []))
  {
  }

  /** The switch of the first walk for the families built later: the
    * action joins its family's per-shard groups, or the relaying queue. */
  method RouteGrouped(r: Routed, t: Tagged<Instruction>, st: Stage) returns (r': Routed)
    requires StageOf(t.item) == Some(st) && st != Issuing && st != IssuingETH
    ensures r' == RouteOne(r, t)
  {
    RouteOneAt(r, t, st);
    var action := t.item;
    if st == PdeTrade {
      r' := r.(trades := GroupByShard(r.trades, action, t.shard));
    } else if st == PdeWithdrawal {
      r' := r.(withdrawals := GroupByShard(r.withdrawals, action, t.shard));
    } else if st == PdeContribution {
      r' := r.(contributions := GroupByShard(r.contributions, action, t.shard));
    } else if st == CustodianDeposit {
      r' := r.(deposits := GroupByShard(r.deposits, action, t.shard));
    } else if st == PortingRequest {
      r' := r.(portings := GroupByShard(r.portings, action, t.shard));
    } else if st == PTokenRequest {
      r' := r.(ptokens := GroupByShard(r.ptokens, action, t.shard));
    } else if st == ExchangeRates {
      r' := r.(rates := GroupByShard(r.rates, action, t.shard));
    } else {
      r' := r.(relays := r.relays + [t]);
    }
  }

  /** The first walk of buildStatefulInstructions, over all actions in
    * ascending shard order (the Go double loop over sorted shard keys and
    * each shard's list, see FlattenByShard). */
  method RouteActions<S>(build: (S, Call) -> Built<S>, s: S, byShard: map<Shard, seq<Instruction>>)
    returns (s': S, out: seq<Instruction>, routed: Routed)
    requires WellFormedActions(byShard)
    ensures Outcome(s', out) == Run(build, s, IssuingCalls(Filter(FlattenByShard(byShard), IsIssuingAction)))
    ensures routed == RouteSpec(FlattenByShard(byShard))
  {
    FlattenWellFormed(byShard);
    s', out, routed := RouteStream(build, s, FlattenByShard(byShard));
  }

  /** The walk itself: issuing requests are built at once, the PDE and
    * portal families are grouped per shard and relaying actions are
    * queued; an action whose type does not parse is skipped. */
  method RouteStream<S>(build: (S, Call) -> Built<S>, s: S, ts: seq<Tagged<Instruction>>)
    returns (s': S, out: seq<Instruction>, routed: Routed)
    requires forall t :: t in ts ==> |t.item| >= 2
    ensures Outcome(s', out) == Run(build, s, IssuingCalls(Filter(ts, IsIssuingAction)))
    ensures routed == RouteSpec(ts)
  {
    s', out := s, [];
    routed := Routed(map[], map[], map[], map[], map[], map[], map[], []);
    ghost var issued: seq<Tagged<Instruction>> := [];
    assert ts[..0] == [];
    var i := 0;
    while i < |ts|
      invariant 0 <= i <= |ts|
      invariant issued == Filter(ts[..i], IsIssuingAction)
      invariant Outcome(s', out) == Run(build, s, IssuingCalls(issued))
      invariant routed == RouteSpec(ts[..i])
    {
      var t := ts[i];
      assert ts[..i + 1] == ts[..i] + [t];
      FilterSnoc(ts[..i], t, IsIssuingAction);
      RouteSpecSnoc(ts[..i], t);
      assert t in ts;
      s', out, routed, issued := RouteAction(build, s, s', out, routed, issued, t);
      i := i + 1;
    }
    assert ts[..i] == ts;
  }

  /** One step of the walk: the switch on the action's metadata type. */
  method RouteAction<S>(build: (S, Call) -> Built<S>, ghost s0: S, s: S, out: seq<Instruction>, routed: Routed,
                        ghost issued: seq<Tagged<Instruction>>, t: Tagged<Instruction>)
    returns (s': S, out': seq<Instruction>, routed': Routed, ghost issued': seq<Tagged<Instruction>>)
    requires |t.item| >= 2
    requires Outcome(s, out) == Run(build, s0, IssuingCalls(issued))
    ensures issued' == issued + (if IsIssuingAction(t) then [t] else [])
    ensures Outcome(s', out') == Run(build, s0, IssuingCalls(issued'))
    ensures routed' == RouteOne(routed, t)
  {
    var action := t.item;
    var stage := StageOf(action);
    if stage.None? {
      RouteOneSkips(routed, t);
      s', out', routed', issued' := s, out, routed, issued;
    } else if stage.value == Issuing || stage.value == IssuingETH {
      RouteOneSkips(routed, t);
      var c := Call(stage.value, Content(action), t.shard);
      assert IssuingStage(action) == stage.value;
      ghost var calls := IssuingCalls(issued);
      IssuingCallsSnoc(issued, t);
      RunSnoc(build, s0, calls, c);
      var step := build(s, c);
      s' := step.state;
      out' := out + Emitted(step.res);
      routed' := routed;
      issued' := issued + [t];
      assert IssuingCalls(issued') == calls + [c];
    } else {
      s', out', issued' := s, out, issued;
      routed' := RouteGrouped(routed, t, stage.value);
    }
  }

  /** Grouping a family per shard and walking the groups in ascending shard
    * order visits the family's actions in the order of the first walk. */
  lemma GroupedFamilyOrder(byShard: map<Shard, seq<Instruction>>, st: Stage)
    ensures FlattenByShard(GroupStream(Filter(FlattenByShard(byShard), StageIs(st))))
         == Filter(FlattenByShard(byShard), StageIs(st))
  {
    FlattenIsShardOrdered(byShard);
    FilterKeepsShardOrder(FlattenByShard(byShard), StageIs(st));
    GroupThenFlatten(Filter(FlattenByShard(byShard), StageIs(st)));
  }

  // ---------------------------------------------------------------------
  // The handlers that run after the first walk

  /** The external codecs and key builder the handlers use: decoding and
    * encoding a trade and a relaying action (base64 over JSON), and
    * lvdb.BuildPDEPoolForPairKey. */
  datatype Codecs = Codecs(
    decodeTrade: string -> Option<TradeAction>,
    encodeTrade: TradeAction -> string,
    poolKey: (U64, string, string) -> string,
    decodeRelay: string -> Option<RelayingHeaderAction>,
    encodeRelay: RelayingHeaderAction -> string)

  /** The trade builder calls: each sorted trade, re-encoded, told the shard
    * recorded in the trade itself. */
  function TradeCalls(encode: TradeAction -> string, trades: seq<TradeAction>): seq<Call>
  {
    seq(|trades|, i requires 0 <= i < |trades| => Call(PdeTrade, encode(trades[i]), trades[i].shardID))
  }

  /** The relaying builder calls: each action, re-encoded, told its own
    * shard. */
  function RelayCalls(encode: RelayingHeaderAction -> string, acts: seq<RelayingHeaderAction>): seq<Call>
  {
    seq(|acts|, i requires 0 <= i < |acts| => Call(HeaderRelaying, encode(acts[i]), acts[i].shardID))
  }

  /** The calls for a family grouped per shard: shards in ascending order,
    * each shard's actions in order. */
  function FamilyCalls(st: Stage, m: map<Shard, seq<Instruction>>): seq<Call>
  {
    CallsOf(st, FlattenByShard(m))
  }

  function PdeCalls(encode: TradeAction -> string, trades: seq<TradeAction>, r: Routed): seq<Call>
  {
    TradeCalls(encode, trades) + FamilyCalls(PdeWithdrawal, r.withdrawals) + FamilyCalls(PdeContribution, r.contributions)
  }

  function PortalCalls(r: Routed): seq<Call>
  {
    FamilyCalls(CustodianDeposit, r.deposits) + FamilyCalls(PortingRequest, r.portings) +
    FamilyCalls(PTokenRequest, r.ptokens) + FamilyCalls(ExchangeRates, r.rates)
  }

  /** Running a second list from where the first left off. */
  lemma RunThen<S>(build: (S, Call) -> Built<S>, s: S, a: seq<Call>, b: seq<Call>,
                   s1: S, o1: seq<Instruction>, s2: S, o2: seq<Instruction>)
    requires Outcome(s1, o1) == Run(build, s, a)
    requires Outcome(s2, o2) == Run(build, s1, b)
    ensures Outcome(s2, o1 + o2) == Run(build, s, a + b)
  {
    RunAppend(build, s, a, b);
  }

  /** One family's loop over its shards in ascending order. */
  method RunFamily<S>(build: (S, Call) -> Built<S>, s: S, st: Stage, m: map<Shard, seq<Instruction>>)
    returns (s': S, out: seq<Instruction>)
    ensures Outcome(s', out) == Run(build, s, FamilyCalls(st, m))
  {
    s', out := RunCalls(build, s, CallsOf(st, FlattenByShard(m)));
  }

  /** handlePDEInsts: the trades sorted by sortPDETradeInstsByFee against
    * the pool pairs of the current PDE state, then the withdrawals, then
    * the contributions. */
  method HandlePdeInsts<S>(build: (S, Call) -> Built<S>, s: S, c: Codecs, poolsOf: S -> Pools,
                           beaconHeight: U64, r: Routed)
    returns (s': S, out: seq<Instruction>, ghost trades: seq<TradeAction>)
    ensures TradeOrder(poolsOf(s), PairKeyAt(c.poolKey, beaconHeight), DecodeAll(c.decodeTrade, FlattenByShard(r.trades)), trades)
    ensures Outcome(s', out) == Run(build, s, PdeCalls(c.encodeTrade, trades, r))
  {
    var sorted := SortPdeTradeInstsByFee(c.decodeTrade, c.poolKey, beaconHeight, poolsOf(s), r.trades);
    trades := sorted;
    var s1, o1 := RunCalls(build, s, TradeCalls(c.encodeTrade, sorted));
    var s2, o2 := RunFamily(build, s1, PdeWithdrawal, r.withdrawals);
    var s3, o3 := RunFamily(build, s2, PdeContribution, r.contributions);
    RunThen(build, s, TradeCalls(c.encodeTrade, sorted), FamilyCalls(PdeWithdrawal, r.withdrawals), s1, o1, s2, o2);
    RunThen(build, s, TradeCalls(c.encodeTrade, sorted) + FamilyCalls(PdeWithdrawal, r.withdrawals),
            FamilyCalls(PdeContribution, r.contributions), s2, o1 + o2, s3, o3);
    s', out := s3, o1 + o2 + o3;
  }

  /** handlePortalInsts: custodian deposits, porting requests, ptoken
    * requests, exchange rates, each family shard by shard. */
  method HandlePortalInsts<S>(build: (S, Call) -> Built<S>, s: S, r: Routed)
    returns (s': S, out: seq<Instruction>)
    ensures Outcome(s', out) == Run(build, s, PortalCalls(r))
  {
    var a := FamilyCalls(CustodianDeposit, r.deposits);
    var b := FamilyCalls(PortingRequest, r.portings);
    var c := FamilyCalls(PTokenRequest, r.ptokens);
    var d := FamilyCalls(ExchangeRates, r.rates);
    var s1, o1 := RunFamily(build, s, CustodianDeposit, r.deposits);
    var s2, o2 := RunFamily(build, s1, PortingRequest, r.portings);
    var s3, o3 := RunFamily(build, s2, PTokenRequest, r.ptokens);
    var s4, o4 := RunFamily(build, s3, ExchangeRates, r.rates);
    RunThen(build, s, a, b, s1, o1, s2, o2);
    RunThen(build, s, a + b, c, s2, o1 + o2, s3, o3);
    RunThen(build, s, a + b + c, d, s3, o1 + o2 + o3, s4, o4);
    s', out := s4, o1 + o2 + o3 + o4;
  }

  /** handleRelayingInsts: the relaying actions grouped by block height,
    * heights in ascending order, each height's actions in arrival order. */
  method HandleRelayingInsts<S>(build: (S, Call) -> Built<S>, s: S, c: Codecs, relays: seq<Tagged<Instruction>>)
    returns (s': S, out: seq<Instruction>, ghost heights: seq<U64>)
    ensures forall h :: h in heights <==> h in GroupBy(DecodeAll(c.decodeRelay, relays), HeightOf())
    ensures forall i, j :: 0 <= i < j < |heights| ==> heights[i] < heights[j]
    ensures Outcome(s', out) ==
      Run(build, s, RelayCalls(c.encodeRelay, ConcatGroups(heights, GroupBy(DecodeAll(c.decodeRelay, relays), HeightOf()))))
  {
    var groups, sortedHeights := SortRelayingInstsByBlockHeight(c.decodeRelay, relays);
    heights := sortedHeights;
    s', out := s, [];
    var i := 0;
    while i < |sortedHeights|
      invariant 0 <= i <= |sortedHeights|
      invariant Outcome(s', out) == Run(build, s, RelayCalls(c.encodeRelay, ConcatGroups(sortedHeights[..i], groups)))
    {
      var h := sortedHeights[i];
      PrefixSnoc(sortedHeights, i);
      ConcatGroupsAppend(sortedHeights[..i], h, groups);
      var acts := groups[h];
      RelayCallsAppend(c.encodeRelay, ConcatGroups(sortedHeights[..i], groups), acts);
      var s1, o1 := RunCalls(build, s', RelayCalls(c.encodeRelay, acts));
      RunThen(build, s, RelayCalls(c.encodeRelay, ConcatGroups(sortedHeights[..i], groups)), RelayCalls(c.encodeRelay, acts),
              s', out, s1, o1);
      s', out := s1, out + o1;
      i := i + 1;
    }
    assert sortedHeights[..i] == sortedHeights;
  }

  lemma RelayCallsAppend(encode: RelayingHeaderAction -> string, a: seq<RelayingHeaderAction>, b: seq<RelayingHeaderAction>)
    ensures RelayCalls(encode, a + b) == RelayCalls(encode, a) + RelayCalls(encode, b)
  {
  }

  // ---------------------------------------------------------------------
  // buildStatefulInstructions

  /** The calls of one family, in the order of the first walk. */
  function StageCalls(st: Stage, flat: seq<Tagged<Instruction>>): seq<Call>
  {
    CallsOf(st, Filter(flat, StageIs(st)))
  }

  /** The whole schedule of builder calls for the actions of all shards
    * (flat: every shard's actions, shards in ascending order), given the
    * order sortPDETradeInstsByFee chose for the trades and the sorted
    * block heights of the relaying actions. */
  function Schedule(c: Codecs, flat: seq<Tagged<Instruction>>, trades: seq<TradeAction>, heights: seq<U64>): seq<Call>
  {
    Flatten(Segments(c, flat, trades, heights))
  }

  /** The schedule family by family, in the beacon's fixed order. */
  function Segments(c: Codecs, flat: seq<Tagged<Instruction>>, trades: seq<TradeAction>, heights: seq<U64>): seq<seq<Call>>
  {
    [IssuingCalls(Filter(flat, IsIssuingAction)),
     TradeCalls(c.encodeTrade, trades),
     StageCalls(PdeWithdrawal, flat),
     StageCalls(PdeContribution, flat),
     StageCalls(CustodianDeposit, flat),
     StageCalls(PortingRequest, flat),
     StageCalls(PTokenRequest, flat),
     StageCalls(ExchangeRates, flat),
     RelayCalls(c.encodeRelay, ConcatGroups(heights, RelayGroups(c, flat)))]
  }

  /** Runs of calls put one after the other. */
  function Flatten(segs: seq<seq<Call>>): seq<Call>
  {
    if |segs| == 0 then [] else Flatten(segs[..|segs| - 1]) + segs[|segs| - 1]
  }

  lemma FlattenSnoc(segs: seq<seq<Call>>, x: seq<Call>)
    ensures Flatten(segs + [x]) == Flatten(segs) + x
  {
    assert (segs + [x])[..|segs|] == segs;
  }

  lemma FlattenNine(a: seq<Call>, b: seq<Call>, c: seq<Call>, d: seq<Call>, e: seq<Call>,
                    f: seq<Call>, g: seq<Call>, h: seq<Call>, i: seq<Call>)
    ensures Flatten([a, b, c, d, e, f, g, h, i]) == a + b + c + d + e + f + g + h + i
  {
    FlattenSnoc([], a);
    assert [] + [a] == [a];
    FlattenSnoc([a], b);
    assert [a] + [b] == [a, b];
    FlattenSnoc([a, b], c);
    assert [a, b] + [c] == [a, b, c];
    FlattenSnoc([a, b, c], d);
    assert [a, b, c] + [d] == [a, b, c, d];
    FlattenSnoc([a, b, c, d], e);
    assert [a, b, c, d] + [e] == [a, b, c, d, e];
    FlattenSnoc([a, b, c, d, e], f);
    assert [a, b, c, d, e] + [f] == [a, b, c, d, e, f];
    FlattenSnoc([a, b, c, d, e, f], g);
    assert [a, b, c, d, e, f] + [g] == [a, b, c, d, e, f, g];
    FlattenSnoc([a, b, c, d, e, f, g], h);
    assert [a, b, c, d, e, f, g] + [h] == [a, b, c, d, e, f, g, h];
    FlattenSnoc([a, b, c, d, e, f, g, h], i);
    assert [a, b, c, d, e, f, g, h] + [i] == [a, b, c, d, e, f, g, h, i];
  }

  /** The decoded relaying actions grouped by block height. */
  function RelayGroups(c: Codecs, flat: seq<Tagged<Instruction>>): map<U64, seq<RelayingHeaderAction>>
  {
    GroupBy(DecodeAll(c.decodeRelay, Filter(flat, StageIs(HeaderRelaying))), HeightOf())
  }

  /** buildStatefulInstructions: the first walk builds the issuing requests
    * and routes the rest; then, at beaconHeight - 1 (wrapping as uint64),
    * the PDE handler, the portal handler and the relaying handler run in
    * that order on the builders' shared state. The result is the builders'
    * output over Schedule; the trades come in an order TradeOrder allows,
    * judged against the pools after the first walk, and the relaying
    * heights ascend. */
  method BuildStatefulInstructions<S>(build: (S, Call) -> Built<S>, s: S, c: Codecs, poolsOf: S -> Pools,
                                      byShard: map<Shard, seq<Instruction>>, beaconHeight: U64)
    returns (out: seq<Instruction>, ghost trades: seq<TradeAction>, ghost heights: seq<U64>)
    requires WellFormedActions(byShard)
    ensures TradeOrder(poolsOf(Run(build, s, IssuingCalls(Filter(FlattenByShard(byShard), IsIssuingAction))).state),
                       PairKeyAt(c.poolKey, SubU64(beaconHeight, 1)),
                       DecodeAll(c.decodeTrade, Filter(FlattenByShard(byShard), StageIs(PdeTrade))), trades)
    ensures forall h :: h in heights <==> h in RelayGroups(c, FlattenByShard(byShard))
    ensures forall i, j :: 0 <= i < j < |heights| ==> heights[i] < heights[j]
    ensures out == Run(build, s, Schedule(c, FlattenByShard(byShard), trades, heights)).out
  {
    ghost var flat := FlattenByShard(byShard);
    var s1, o1, routed := RouteActions(build, s, byShard);
    var h := SubU64(beaconHeight, 1);
    var s2, o2, ts := HandlePdeInsts(build, s1, c, poolsOf, h, routed);
    var s3, o3 := HandlePortalInsts(build, s2, routed);
    var s4, o4, hs := HandleRelayingInsts(build, s3, c, routed.relays);
    trades, heights := ts, hs;
    RoutedFamily(byShard, PdeTrade);
    RouteSpecFamilies(flat, HeaderRelaying);
    forall st | IsGroupedStage(st) ensures FamilyCalls(st, GroupOf(routed, st)) == StageCalls(st, flat) {
      RoutedFamily(byShard, st);
    }
    RunThen(build, s, IssuingCalls(Filter(flat, IsIssuingAction)), PdeCalls(c.encodeTrade, ts, routed), s1, o1, s2, o2);
    RunThen(build, s, IssuingCalls(Filter(flat, IsIssuingAction)) + PdeCalls(c.encodeTrade, ts, routed), PortalCalls(routed),
            s2, o1 + o2, s3, o3);
    RunThen(build, s, IssuingCalls(Filter(flat, IsIssuingAction)) + PdeCalls(c.encodeTrade, ts, routed) + PortalCalls(routed),
            RelayCalls(c.encodeRelay, ConcatGroups(hs, RelayGroups(c, flat))), s3, o1 + o2 + o3, s4, o4);
    ScheduleSplits(c, flat, ts, hs, routed);
    out := o1 + o2 + o3 + o4;
  }

  /** What the first walk leaves for a family, walked shard by shard, is
    * that family's actions in the order of the walk. */
  lemma RoutedFamily(byShard: map<Shard, seq<Instruction>>, st: Stage)
    requires IsGroupedStage(st)
    ensures FlattenByShard(GroupOf(RouteSpec(FlattenByShard(byShard)), st)) == Filter(FlattenByShard(byShard), StageIs(st))
    ensures FamilyCalls(st, GroupOf(RouteSpec(FlattenByShard(byShard)), st)) == StageCalls(st, FlattenByShard(byShard))
  {
    RouteSpecFamilies(FlattenByShard(byShard), st);
    GroupedFamilyOrder(byShard, st);
  }

  lemma ScheduleSplits(c: Codecs, flat: seq<Tagged<Instruction>>, trades: seq<TradeAction>, heights: seq<U64>, routed: Routed)
    requires forall st :: IsGroupedStage(st) ==> FamilyCalls(st, GroupOf(routed, st)) == StageCalls(st, flat)
    ensures Schedule(c, flat, trades, heights) ==
      IssuingCalls(Filter(flat, IsIssuingAction)) + PdeCalls(c.encodeTrade, trades, routed) + PortalCalls(routed)
      + RelayCalls(c.encodeRelay, ConcatGroups(heights, RelayGroups(c, flat)))
  {
    var iss := IssuingCalls(Filter(flat, IsIssuingAction));
    var tr := TradeCalls(c.encodeTrade, trades);
    var wd := FamilyCalls(PdeWithdrawal, GroupOf(routed, PdeWithdrawal));
    var ct := FamilyCalls(PdeContribution, GroupOf(routed, PdeContribution));
    var dp := FamilyCalls(CustodianDeposit, GroupOf(routed, CustodianDeposit));
    var pr := FamilyCalls(PortingRequest, GroupOf(routed, PortingRequest));
    var pt := FamilyCalls(PTokenRequest, GroupOf(routed, PTokenRequest));
    var er := FamilyCalls(ExchangeRates, GroupOf(routed, ExchangeRates));
    var rl := RelayCalls(c.encodeRelay, ConcatGroups(heights, RelayGroups(c, flat)));
    assert PdeCalls(c.encodeTrade, trades, routed) == tr + wd + ct;
    assert PortalCalls(routed) == dp + pr + pt + er;
    FlattenNine(iss, tr, StageCalls(PdeWithdrawal, flat), StageCalls(PdeContribution, flat),
                StageCalls(CustodianDeposit, flat), StageCalls(PortingRequest, flat),
                StageCalls(PTokenRequest, flat), StageCalls(ExchangeRates, flat), rl);
    assert Schedule(c, flat, trades, heights) == iss + tr + wd + ct + dp + pr + pt + er + rl;
    Regroup(iss, tr, wd, ct, dp, pr, pt, er, rl);
  }

  lemma Regroup<T>(a: seq<T>, b: seq<T>, c: seq<T>, d: seq<T>, e: seq<T>, f: seq<T>, g: seq<T>, h: seq<T>, i: seq<T>)
    ensures a + b + c + d + e + f + g + h + i == a + (b + c + d) + (e + f + g + h) + i
  {
    assert a + b + c + d == a + (b + c + d);
    assert a + (b + c + d) + e + f + g + h == a + (b + c + d) + (e + f + g + h);
  }

  /** Calls come family by family in the order of Phase. */
  ghost predicate PhaseSorted(cs: seq<Call>)
  {
    forall i, j :: 0 <= i < j < |cs| ==> Phase(cs[i].stage) <= Phase(cs[j].stage)
  }

  ghost predicate AllAtPhase(cs: seq<Call>, p: nat)
  {
    forall i :: 0 <= i < |cs| ==> Phase(cs[i].stage) == p
  }

  ghost predicate AtMostPhase(cs: seq<Call>, p: nat)
  {
    forall i :: 0 <= i < |cs| ==> Phase(cs[i].stage) <= p
  }

  /** Appending calls of a phase no earlier than any before them keeps the
    * calls in phase order. */
  lemma AppendPhase(a: seq<Call>, b: seq<Call>, p: nat)
    requires PhaseSorted(a) && AtMostPhase(a, p)
    requires AllAtPhase(b, p)
    ensures PhaseSorted(a + b) && AtMostPhase(a + b, p)
  {
    var c := a + b;
    forall i, j | 0 <= i < j < |c| ensures Phase(c[i].stage) <= Phase(c[j].stage) {
      if j < |a| {
        assert c[i] == a[i] && c[j] == a[j];
      } else if i < |a| {
        assert c[i] == a[i] && c[j] == b[j - |a|];
      } else {
        assert c[i] == b[i - |a|] && c[j] == b[j - |a|];
      }
    }
    forall i | 0 <= i < |c| ensures Phase(c[i].stage) <= p {
      if i < |a| {
        assert c[i] == a[i];
      } else {
        assert c[i] == b[i - |a|];
      }
    }
  }

  lemma StagePhase(st: Stage, ts: seq<Tagged<Instruction>>)
    ensures AllAtPhase(CallsOf(st, ts), Phase(st))
  {
  }

  lemma IssuingPhase(ts: seq<Tagged<Instruction>>)
    ensures AllAtPhase(IssuingCalls(ts), 0)
  {
  }

  lemma TradePhase(encode: TradeAction -> string, trades: seq<TradeAction>)
    ensures AllAtPhase(TradeCalls(encode, trades), 1)
  {
  }

  lemma RelayPhase(encode: RelayingHeaderAction -> string, acts: seq<RelayingHeaderAction>)
    ensures AllAtPhase(RelayCalls(encode, acts), 8)
  {
  }

  /** Runs of calls where the k-th run is all of phase k are in phase order
    * when put one after the other. */
  lemma {:induction false} PhasedFlatten(segs: seq<seq<Call>>)
    requires forall k :: 0 <= k < |segs| ==> AllAtPhase(segs[k], k)
    ensures PhaseSorted(Flatten(segs))
    ensures |segs| > 0 ==> AtMostPhase(Flatten(segs), |segs| - 1)
  {
    if |segs| > 0 {
      var n := |segs| - 1;
      PhasedFlatten(segs[..n]);
      if n == 0 {
        assert Flatten(segs[..n]) == [];
      }
      AppendPhase(Flatten(segs[..n]), segs[n], n);
    }
  }

  /** The schedule runs the families in the beacon's fixed order: both
    * issuing kinds, PDE trades, withdrawals, contributions, custodian
    * deposits, porting requests, ptoken requests, exchange rates, header
    * relaying. */
  lemma SchedulePhases(c: Codecs, flat: seq<Tagged<Instruction>>, trades: seq<TradeAction>, heights: seq<U64>)
    ensures PhaseSorted(Schedule(c, flat, trades, heights))
  {
    var segs := Segments(c, flat, trades, heights);
    forall k | 0 <= k < |segs| ensures AllAtPhase(segs[k], k) {
      if k < 3 {
        IssuingAndTradePhases(c, flat, trades, heights, k);
      } else if k < 6 {
        PdeAndPortalPhases(c, flat, trades, heights, k);
      } else {
        PortalAndRelayPhases(c, flat, trades, heights, k);
      }
    }
    PhasedFlatten(segs);
  }

  /** Segments 0 to 2: issuing, trades, withdrawals. */
  lemma IssuingAndTradePhases(c: Codecs, flat: seq<Tagged<Instruction>>, trades: seq<TradeAction>, heights: seq<U64>, k: nat)
    requires k < 3
    ensures AllAtPhase(Segments(c, flat, trades, heights)[k], k)
  {
    if k == 0 {
      IssuingPhase(Filter(flat, IsIssuingAction));
    } else if k == 1 {
      TradePhase(c.encodeTrade, trades);
    } else {
      StageCallsPhase(PdeWithdrawal, flat, k);
    }
  }

  /** Segments 3 to 5: contributions, custodian deposits, porting requests. */
  lemma PdeAndPortalPhases(c: Codecs, flat: seq<Tagged<Instruction>>, trades: seq<TradeAction>, heights: seq<U64>, k: nat)
    requires 3 <= k < 6
    ensures AllAtPhase(Segments(c, flat, trades, heights)[k], k)
  {
    if k == 3 {
      StageCallsPhase(PdeContribution, flat, k);
    } else if k == 4 {
      StageCallsPhase(CustodianDeposit, flat, k);
    } else {
      StageCallsPhase(PortingRequest, flat, k);
    }
  }

  /** Segments 6 to 8: ptoken requests, exchange rates, header relaying. */
  lemma PortalAndRelayPhases(c: Codecs, flat: seq<Tagged<Instruction>>, trades: seq<TradeAction>, heights: seq<U64>, k: nat)
    requires 6 <= k < 9
    ensures AllAtPhase(Segments(c, flat, trades, heights)[k], k)
  {
    if k == 6 {
      StageCallsPhase(PTokenRequest, flat, k);
    } else if k == 7 {
      StageCallsPhase(ExchangeRates, flat, k);
    } else {
      RelayPhase(c.encodeRelay, ConcatGroups(heights, RelayGroups(c, flat)));
    }
  }

  lemma StageCallsPhase(st: Stage, flat: seq<Tagged<Instruction>>, p: nat)
    requires p == Phase(st)
    ensures AllAtPhase(StageCalls(st, flat), p)
  {
    StagePhase(st, Filter(flat, StageIs(st)));
  }

}
