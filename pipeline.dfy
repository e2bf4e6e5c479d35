/**
  The decision part of LLVM_Optimize_Module: which optimisation level the
  integer CodeOptLevel denotes, which default pipeline the pass builder is
  asked for, which tuning options are set, and which loop passes are
  appended after the default pipeline.
*/
module OptimizePipeline {
  import opened CTypes

  datatype OptimizationLevel = O0 | O1 | O2 | O3

  /** Helper: the conventional number of each level, used to state LevelFor. */
  function LevelNumber(l: OptimizationLevel): i32
  {
    match l
    case O0 => 0
    case O1 => 1
    case O2 => 2
    case O3 => 3
  }

  /** The CodeOptLevel to OptimizationLevel mapping: 1, 2 and 3 select O1, O2
      and O3; every other integer selects O0. */
  function LevelFor(codeOptLevel: i32): (l: OptimizationLevel)
    ensures l == O0 <==> !(1 <= codeOptLevel <= 3)
    ensures l != O0 ==> LevelNumber(l) == codeOptLevel
  {
    if codeOptLevel == 1 then O1
    else if codeOptLevel == 2 then O2
    else if codeOptLevel == 3 then O3
    else O0
  }

  /** The default pipeline requested from the pass builder. */
  datatype PipelineKind =
    | O0Pipeline(ltoPreLink: bool)
    | ThinLtoPreLink(level: OptimizationLevel)
    | LtoPreLink(level: OptimizationLevel)
    | PerModule(level: OptimizationLevel)

  /** Loop passes appended to the module pass manager after the default
      pipeline, each wrapped in a module-to-function-to-loop adaptor. */
  datatype ExtraPass = LoopRotate | OurLoopPass

  /** The PipelineTuningOptions fields the wrapper sets. */
  datatype Tuning = Tuning(loopUnrolling: bool, loopInterleaving: bool, loopVectorization: bool,
                           slpVectorization: bool, mergeFunctions: bool)

  datatype Plan = Plan(level: OptimizationLevel, tuning: Tuning, pipeline: PipelineKind, extras: seq<ExtraPass>)

  /** The decisions LLVM_Optimize_Module takes before it runs the pass manager. */
  function SelectPipeline(codeOptLevel: i32, needLoopInfo: bool, noUnrollLoops: bool,
                          noLoopVectorization: bool, noSLPVectorization: bool, mergeFunctions: bool,
                          prepareForThinLTO: bool, prepareForLTO: bool): (p: Plan)
    ensures p.level == LevelFor(codeOptLevel)
    ensures p.pipeline.O0Pipeline? <==> codeOptLevel == 0
    ensures !p.pipeline.O0Pipeline? ==> p.pipeline.level == p.level
    ensures OurLoopPass in p.extras <==> needLoopInfo
    ensures LoopRotate in p.extras <==> needLoopInfo && codeOptLevel == 0
  {
    var level := LevelFor(codeOptLevel);
    var tuning := Tuning(!noUnrollLoops, !noUnrollLoops, !noLoopVectorization, !noSLPVectorization, mergeFunctions);
    var (pipeline, rotate) :=
      if codeOptLevel == 0 then
        (O0Pipeline(prepareForLTO || prepareForThinLTO), if needLoopInfo then [LoopRotate] else [])
      else if prepareForThinLTO then (ThinLtoPreLink(level), [])
      else if prepareForLTO then (LtoPreLink(level), [])
      else (PerModule(level), []);
    Plan(level, tuning, pipeline, rotate + (if needLoopInfo then [OurLoopPass] else []))
  }

  /** LevelFor maps 1, 2, 3 to O1, O2, O3 and everything else to O0. */
  lemma LevelMapping(c: i32, l: OptimizationLevel)
    ensures LevelFor(c) == l <==> (c == LevelNumber(l) || (l == O0 && !(1 <= c <= 3)))
  {
  }

  /** LevelFor undoes LevelNumber. */
  lemma LevelRoundTrip(l: OptimizationLevel)
    ensures LevelFor(LevelNumber(l)) == l
  {
  }

  /** CodeOptLevel 0 selects the O0 pipeline, built for LTO pre-linking when
      either kind of LTO is being prepared, followed by loop rotation and
      OurLoopPass exactly when loop information is needed. */
  lemma O0Selection(codeOptLevel: i32, needLoopInfo: bool, noUnrollLoops: bool,
                    noLoopVectorization: bool, noSLPVectorization: bool, mergeFunctions: bool,
                    prepareForThinLTO: bool, prepareForLTO: bool)
    requires codeOptLevel == 0
    ensures var p := SelectPipeline(codeOptLevel, needLoopInfo, noUnrollLoops, noLoopVectorization,
                                    noSLPVectorization, mergeFunctions, prepareForThinLTO, prepareForLTO);
            && p.level == O0
            && p.pipeline == O0Pipeline(prepareForLTO || prepareForThinLTO)
            && p.extras == if needLoopInfo then [LoopRotate, OurLoopPass] else []
  {
  }

  /** Any other CodeOptLevel: ThinLTO pre-linking takes precedence over LTO
      pre-linking, which takes precedence over the per-module pipeline; the
      level passed along is LevelFor(CodeOptLevel). */
  lemma OptimizingSelection(codeOptLevel: i32, needLoopInfo: bool, noUnrollLoops: bool,
                            noLoopVectorization: bool, noSLPVectorization: bool, mergeFunctions: bool,
                            prepareForThinLTO: bool, prepareForLTO: bool)
    requires codeOptLevel != 0
    ensures var p := SelectPipeline(codeOptLevel, needLoopInfo, noUnrollLoops, noLoopVectorization,
                                    noSLPVectorization, mergeFunctions, prepareForThinLTO, prepareForLTO);
            var l := LevelFor(codeOptLevel);
            && (prepareForThinLTO ==> p.pipeline == ThinLtoPreLink(l))
            && (!prepareForThinLTO && prepareForLTO ==> p.pipeline == LtoPreLink(l))
            && (!prepareForThinLTO && !prepareForLTO ==> p.pipeline == PerModule(l))
            && p.extras == if needLoopInfo then [OurLoopPass] else []
  {
  }

  /** OurLoopPass is appended, last, exactly when loop information is needed,
      at every level; loop rotation is appended only on the O0 path. */
  lemma ExtraPassesRule(codeOptLevel: i32, needLoopInfo: bool, noUnrollLoops: bool,
                        noLoopVectorization: bool, noSLPVectorization: bool, mergeFunctions: bool,
                        prepareForThinLTO: bool, prepareForLTO: bool)
    ensures var p := SelectPipeline(codeOptLevel, needLoopInfo, noUnrollLoops, noLoopVectorization,
                                    noSLPVectorization, mergeFunctions, prepareForThinLTO, prepareForLTO);
            && (OurLoopPass in p.extras <==> needLoopInfo)
            && (needLoopInfo ==> p.extras[|p.extras| - 1] == OurLoopPass)
            && (LoopRotate in p.extras <==> needLoopInfo && codeOptLevel == 0)
            && |p.extras| <= 2
  {
  }

  /** The tuning options are the negations of the No* flags, with loop
      interleaving tied to loop unrolling; they do not depend on the level. */
  lemma TuningRule(codeOptLevel: i32, needLoopInfo: bool, noUnrollLoops: bool,
                   noLoopVectorization: bool, noSLPVectorization: bool, mergeFunctions: bool,
                   prepareForThinLTO: bool, prepareForLTO: bool)
    ensures var t := SelectPipeline(codeOptLevel, needLoopInfo, noUnrollLoops, noLoopVectorization,
                                    noSLPVectorization, mergeFunctions, prepareForThinLTO, prepareForLTO).tuning;
            && t.loopUnrolling == t.loopInterleaving == !noUnrollLoops
            && t.loopVectorization == !noLoopVectorization
            && t.slpVectorization == !noSLPVectorization
            && t.mergeFunctions == mergeFunctions
  {
  }

  /** A CodeOptLevel that is neither 0 nor 1..3 (say -1 or 4) maps to O0 but
      is not sent down the O0 path: one of the optimising default pipelines
      is requested with level O0. */
  lemma OutOfRangeLevelReachesOptimizingBuilder(codeOptLevel: i32, needLoopInfo: bool, noUnrollLoops: bool,
                                                noLoopVectorization: bool, noSLPVectorization: bool, mergeFunctions: bool,
                                                prepareForThinLTO: bool, prepareForLTO: bool)
    requires !(0 <= codeOptLevel <= 3)
    ensures var p := SelectPipeline(codeOptLevel, needLoopInfo, noUnrollLoops, noLoopVectorization,
                                    noSLPVectorization, mergeFunctions, prepareForThinLTO, prepareForLTO);
            !p.pipeline.O0Pipeline? && p.pipeline.level == O0
  {
  }
}
