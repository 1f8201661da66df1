/** The beacon's portal orchestration (portal/portalprocessing.go): routing
  * a shard action to the relaying, portal v3 or portal v4 collector, putting
  * the three producers' instructions together behind their feature flags,
  * and running the three instruction processors in order until one fails. */
module PortalProcessing {
  import opened Common

  /** The three portal families, in the order the orchestration visits
    * them when processing. */
  datatype Stage = V3 | Relaying | V4

  /** The type predicates IsPortalRelayingMetaType, IsPortalMetaTypeV3 and
    * IsPortalMetaTypeV4; they live in the metadata package, which is not part
    * of this model. */
  datatype MetaTypes = MetaTypes(isRelaying: int -> bool, isV3: int -> bool, isV4: int -> bool)

  /** An action handed to a collector. */
  datatype Collected = Collected(metaType: int, action: Instruction, shardID: Shard)

  /** The portal manager's collectors, each as the actions it received. */
  datatype PortalManager = PortalManager(relaying: seq<Collected>, v3: seq<Collected>, v4: seq<Collected>)

  /** CollectPortalInstructions: relaying types first, then v3, then v4; the
    * action goes to exactly one collector, and the answer says whether it
    * went anywhere. */
  function CollectPortalInstructions(types: MetaTypes, pm: PortalManager, metaType: int, action: Instruction,
                                     shardID: Shard): (r: (bool, PortalManager))
    ensures r.0 <==> types.isRelaying(metaType) || types.isV3(metaType) || types.isV4(metaType)
    ensures !r.0 ==> r.1 == pm
    ensures var c := Collected(metaType, action, shardID);
            && (types.isRelaying(metaType) ==> r.1 == pm.(relaying := pm.relaying + [c]))
            && (!types.isRelaying(metaType) && types.isV3(metaType) ==> r.1 == pm.(v3 := pm.v3 + [c]))
            && (!types.isRelaying(metaType) && !types.isV3(metaType) && types.isV4(metaType) ==> r.1 == pm.(v4 := pm.v4 + [c]))
    ensures |r.1.relaying| + |r.1.v3| + |r.1.v4| == |pm.relaying| + |pm.v3| + |pm.v4| + (if r.0 then 1 else 0)
  {
    var c := Collected(metaType, action, shardID);
    if types.isRelaying(metaType) then (true, pm.(relaying := pm.relaying + [c]))
    else if types.isV3(metaType) then (true, pm.(v3 := pm.v3 + [c]))
    else if types.isV4(metaType) then (true, pm.(v4 := pm.v4 + [c]))
    else (false, pm)
  }

  /** What each producer answered: v3 and v4 may also report an error. */
  datatype Produced = Produced(v3: seq<Instruction>, v3Err: Option<string>, relaying: seq<Instruction>,
                               v4: seq<Instruction>, v4Err: Option<string>)

  /** Which features are on at the current epoch. */
  datatype Flags = Flags(portalV3: bool, relaying: bool, portalV4: bool)

  /** A stage's contribution: its instructions when its flag is on. */
  function Part(on: bool, insts: seq<Instruction>): seq<Instruction>
  {
    if on then insts else []
  }

  /** HandlePortalInsts: the v3 instructions, then the relaying ones, then
    * the v4 ones, each only when its feature is on; a producer's error is
    * only logged, and the answer's error is always nil. */
  function HandlePortalInsts(flags: Flags, p: Produced): (r: (seq<Instruction>, Option<string>))
    ensures r.1.None?
    ensures var n3 := |Part(flags.portalV3, p.v3)|;
            var nr := |Part(flags.relaying, p.relaying)|;
            && |r.0| == n3 + nr + |Part(flags.portalV4, p.v4)|
            && r.0[..n3] == Part(flags.portalV3, p.v3)
            && r.0[n3..n3 + nr] == Part(flags.relaying, p.relaying)
            && r.0[n3 + nr..] == Part(flags.portalV4, p.v4)
  {
    var instructions: seq<Instruction> := [];
    var instructions := if flags.portalV3 && |p.v3| > 0 then instructions + p.v3 else instructions;
    var instructions := if flags.relaying && |p.relaying| > 0 then instructions + p.relaying else instructions;
    var instructions := if flags.portalV4 && |p.v4| > 0 then instructions + p.v4 else instructions;
    (instructions, None)
  }

  /** An instruction of the answer comes from a producer whose feature is
    * on. */
  lemma HandledFromEnabled(flags: Flags, p: Produced, i: nat)
    requires i < |HandlePortalInsts(flags, p).0|
    ensures var x := HandlePortalInsts(flags, p).0[i];
            || (flags.portalV3 && x in p.v3)
            || (flags.relaying && x in p.relaying)
            || (flags.portalV4 && x in p.v4)
  {
    var r := HandlePortalInsts(flags, p).0;
    var v3, relaying, v4 := Part(flags.portalV3, p.v3), Part(flags.relaying, p.relaying), Part(flags.portalV4, p.v4);
    var n3, nr := |v3|, |relaying|;
    if i < n3 {
      assert r[i] == r[..n3][i] == v3[i];
    } else if i < n3 + nr {
      assert r[i] == r[n3..n3 + nr][i - n3] == relaying[i - n3];
    } else {
      assert r[i] == r[n3 + nr..][i - n3 - nr] == v4[i - n3 - nr];
    }
  }

  /** The outcome of processing: the state reached, the error returned and
    * the stages that ran, in order. */
  datatype Processed<S> = Processed(state: S, err: Option<string>, ran: seq<Stage>)

  /** The stages processing visits. */
  function Stages(skipV3: bool): seq<Stage>
  {
    (if skipV3 then [] else [V3]) + [Relaying, V4]
  }

  /** The reference: run the stages in order and stop at the first that
    * fails. `run` stands for the three processors, each over the portal
    * state. */
  function RunStages<S>(s: S, stages: seq<Stage>, run: (Stage, S) -> (S, Option<string>), ran: seq<Stage>): (r: Processed<S>)
    decreases |stages|
  {
    if |stages| == 0 then Processed(s, None, ran)
    else
      var (s', e) := run(stages[0], s);
      if e.Some? then Processed(s', e, ran + [stages[0]])
      else RunStages(s', stages[1..], run, ran + [stages[0]])
  }

  /** ProcessPortalInsts: v3 unless it is to be skipped, then relaying, then
    * v4; the first error is returned and the stages after it do not run. */
  function ProcessPortalInsts<S>(s: S, skipV3: bool, run: (Stage, S) -> (S, Option<string>)): (r: Processed<S>)
    ensures 1 <= |r.ran| <= |Stages(skipV3)| && r.ran == Stages(skipV3)[..|r.ran|]
    ensures V3 in r.ran <==> !skipV3
    ensures r.err.None? ==> r.ran == Stages(skipV3)
    ensures !skipV3 && run(V3, s).1.Some? ==> r == Processed(run(V3, s).0, run(V3, s).1, [V3])
    ensures skipV3 && run(Relaying, s).1.Some? ==> r == Processed(run(Relaying, s).0, run(Relaying, s).1, [Relaying])
  {
    var (s1, e1) := if skipV3 then (s, None) else run(V3, s);
    var done := if skipV3 then [] else [V3];
    if e1.Some? then Processed(s1, e1, done)
    else
      var (s2, e2) := run(Relaying, s1);
      if e2.Some? then Processed(s2, e2, done + [Relaying])
      else
        var (s3, e3) := run(V4, s2);
        Processed(s3, e3, done + [Relaying, V4])
  }

  /** Processing is the reference run over its stages: each stage sees the
    * state the previous one left, and the first error ends the run. */
  lemma ProcessIsRunStages<S>(s: S, skipV3: bool, run: (Stage, S) -> (S, Option<string>))
    ensures ProcessPortalInsts(s, skipV3, run) == RunStages(s, Stages(skipV3), run, [])
  {
    var st := Stages(skipV3);
    var done: seq<Stage> := if skipV3 then [] else [V3];
    var (s1, e1) := if skipV3 then (s, None) else run(V3, s);
    var rest := if skipV3 then st else st[1..];
    assert rest == [Relaying, V4];
    if !skipV3 {
      assert [] + [V3] == done;
      if e1.None? {
        assert RunStages(s, st, run, []) == RunStages(s1, rest, run, done);
      }
    }
    if e1.None? {
      var (s2, e2) := run(Relaying, s1);
      assert rest[1..] == [V4] && rest[1..][1..] == [];
      assert done + [Relaying] + [V4] == done + [Relaying, V4];
      if e2.None? {
        assert RunStages(s1, rest, run, done) == RunStages(s2, rest[1..], run, done + [Relaying]);
      }
    }
  }
}
