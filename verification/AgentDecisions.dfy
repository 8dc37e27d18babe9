/**
 What the co-author agent does in its runs, told by the tools it starts and the events it streams:
 which rule of the planner comes first, what each tool leaves behind, and how a run reports its end.
*/
module AgentDecisions {
  import opened Wrappers
  import opened LatexAgent
  import opened AgentStream

  /** The tools started, in order. */
  function Starts(events: seq<Event>): seq<Tool> {
    if events == [] then []
    else
      Starts(events[..|events| - 1]) +
      if events[|events| - 1].ToolStart? then [events[|events| - 1].tool] else []
  }

  lemma {:induction false} NoneStarted(before: seq<Event>, after: seq<Event>)
    requires before <= after && forall i :: |before| <= i < |after| ==> !after[i].ToolStart?
    ensures Starts(after) == Starts(before)
    decreases |after|
  {
    if |after| == |before| {
      assert after == before;
    } else {
      NoneStarted(before, after[..|after| - 1]);
    }
  }

  lemma {:induction false} OneStarted(before: seq<Event>, after: seq<Event>, at: nat)
    requires before <= after && |before| <= at < |after| && after[at].ToolStart?
    requires forall i :: |before| <= i < |after| && i != at ==> !after[i].ToolStart?
    ensures Starts(after) == Starts(before) + [after[at].tool]
    decreases |after|
  {
    if at == |after| - 1 {
      NoneStarted(before, after[..at]);
    } else {
      OneStarted(before, after[..|after| - 1], at);
    }
  }

  // ---- One node after the other -----------------------------------------------------------------------

  lemma NodeAt(setup: Setup, src: Source, os: seq<Oracle>, k: nat)
    requires k < |os|
    ensures After(setup, src, os[..k + 1]) == Next(setup, After(setup, src, os[..k]), os[k])
  {
    assert os[..k + 1][..k] == os[..k];
  }

  /** The state three nodes on. */
  ghost function Third(setup: Setup, s: State, o1: Oracle, o2: Oracle, o3: Oracle): State
    requires Inv(setup, s)
  {
    NextKeeps(setup, s, o1);
    NextKeeps(setup, Next(setup, s, o1), o2);
    Next(setup, Next(setup, Next(setup, s, o1), o2), o3)
  }

  lemma ThirdAt(setup: Setup, src: Source, os: seq<Oracle>, k: nat)
    requires k + 3 <= |os|
    ensures After(setup, src, os[..k + 3]) == Third(setup, After(setup, src, os[..k]), os[k], os[k + 1], os[k + 2])
  {
    NodeAt(setup, src, os, k);
    NodeAt(setup, src, os, k + 1);
    NodeAt(setup, src, os, k + 2);
  }

  lemma NextAppends(setup: Setup, s: State, o: Oracle)
    requires s.node.ToolExecution? ==> s.toolToCall.Some?
    ensures s.events <= Next(setup, s, o).events
  {
  }

  lemma {:induction false} StreamGrows(setup: Setup, src: Source, os: seq<Oracle>, k: nat)
    requires k <= |os|
    ensures After(setup, src, os[..k]).events <= After(setup, src, os).events
    decreases |os|
  {
    if k == |os| {
      assert os[..k] == os;
    } else {
      var front := os[..|os| - 1];
      assert front[..k] == os[..k];
      StreamGrows(setup, src, front, k);
      NextAppends(setup, After(setup, src, front), os[|os| - 1]);
    }
  }

  // ---- The first decision -----------------------------------------------------------------------------

  lemma FirstPlanned(setup: Setup, src: Source, o: Oracle)
    ensures var s := Next(setup, Initial(setup, src), o);
            && s.node.ToolExecution? && s.toolToCall.Some? && |s.events| == 1 && s.events[0].Thinking?
            && s.source == src && s.compiled == [] && s.compileCount == 0
            && (setup.modelPlans && o.plan.Some? ==> s.toolToCall == o.plan)
            && (!(setup.modelPlans && o.plan.Some?) ==>
                  s.toolToCall.value.tool ==
                  if setup.wantsEvidence then QueryLibraryGraphRag
                  else if setup.wantsListing then ListProjectFiles
                  else if setup.wantsAuthor || setup.wantsTitle then EditLatexFiles
                  else CompileLatexE2b)
  {
  }

  lemma ToolStarts(setup: Setup, s: State, o: Oracle)
    requires s.node.ToolExecution? && s.toolToCall.Some?
    ensures s.events + [ToolStart(s.toolToCall.value.tool)] <= Next(setup, s, o).events
  {
  }

  /**
   Which tool a run starts first: the one the model names, if it names one; else the library, if
   the message asks for evidence; else the file list, if it asks for that; else an edit, if it asks
   for another author or title; else the compiler.
  */
  lemma FirstToolStarted(setup: Setup, src: Source, os: seq<Oracle>)
    requires |os| >= 2
    ensures var events := After(setup, src, os).events;
            && |events| >= 2 && events[0].Thinking? && events[1].ToolStart?
            && (setup.modelPlans && os[0].plan.Some? ==> events[1].tool == os[0].plan.value.tool)
            && (!(setup.modelPlans && os[0].plan.Some?) ==>
                  && (setup.wantsEvidence ==> events[1].tool == QueryLibraryGraphRag)
                  && (!setup.wantsEvidence && setup.wantsListing ==> events[1].tool == ListProjectFiles)
                  && (!setup.wantsEvidence && !setup.wantsListing && (setup.wantsAuthor || setup.wantsTitle) ==>
                        events[1].tool == EditLatexFiles)
                  && (!setup.wantsEvidence && !setup.wantsListing && !setup.wantsAuthor && !setup.wantsTitle ==>
                        events[1].tool == CompileLatexE2b))
  {
    StartsInitially(setup, src, os);
    NodeAt(setup, src, os, 0);
    NodeAt(setup, src, os, 1);
    FirstPlanned(setup, src, os[0]);
    var planned := After(setup, src, os[..1]);
    ToolStarts(setup, planned, os[1]);
    StreamGrows(setup, src, os, 2);
    FirstTwo(planned.events, planned.toolToCall.value.tool, After(setup, src, os[..2]).events,
        After(setup, src, os).events);
  }

  lemma FirstTwo(planned: seq<Event>, tool: Tool, two: seq<Event>, all: seq<Event>)
    requires |planned| == 1 && planned + [ToolStart(tool)] <= two <= all
    ensures |all| >= 2 && all[0] == planned[0] && all[1] == ToolStart(tool)
  {
    var start := planned + [ToolStart(tool)];
    assert all[0] == start[0] && all[1] == start[1];
  }

  // ---- Whole runs without a model -----------------------------------------------------------------

  /** Nothing is done yet but looking around. */
  ghost predicate StillLooking(setup: Setup, src: Source, s: State) {
    && s.node.ReasonAndPlan? && s.compileResult.NotRun? && s.compileCount == 0 && s.compiled == []
    && s.source == src && s.seenHashes == [Key(setup, src)] && !s.oscillation && s.maxCompileAttempts == MAX_ATTEMPTS
  }

  /** A source is on its way to the compiler, which has seen none yet. */
  ghost predicate AboutToCompileFirst(s: State, src: Source) {
    && s.node.ToolExecution? && s.toolToCall == Some(ToolCall(CompileLatexE2b, NoInput()))
    && s.compileCount == 0 && s.compiled == [] && s.source == src && !s.oscillation
  }

  lemma LookNodesStart(setup: Setup, src: Source, s: State, o1: Oracle, o2: Oracle, o3: Oracle, tool: Tool)
    requires StillLooking(setup, src, s) && !setup.modelPlans && s.lastTool == None && !s.hasEvidence
    requires if setup.wantsEvidence then tool == QueryLibraryGraphRag
             else setup.wantsListing && tool == ListProjectFiles
    ensures var planned := Next(setup, s, o1);
            && planned.node.ToolExecution? && planned.toolToCall.Some?
            && var found := Next(setup, planned, o2);
            && found.node.HealingRouter?
            && var t := Next(setup, found, o3);
            && StillLooking(setup, src, t) && t.lastTool == Some(tool)
            && |t.events| == |s.events| + 3 && t.events[..|s.events|] == s.events
            && t.events[|s.events|].Thinking? && t.events[|s.events| + 1] == ToolStart(tool)
            && t.events[|s.events| + 2] == ToolEnd(tool)
  {
  }

  lemma EditNodesStart(setup: Setup, src: Source, s: State, o1: Oracle, o2: Oracle, o3: Oracle)
    requires StillLooking(setup, src, s) && !setup.modelPlans
    requires s.lastTool == Some(QueryLibraryGraphRag) ||
             (!setup.wantsEvidence && (setup.wantsListing ==> s.lastTool == Some(ListProjectFiles)) &&
              (setup.wantsAuthor || setup.wantsTitle) && s.lastTool != Some(EditLatexFiles))
    requires Key(setup, Source(o1.patch, src.bib)) != Key(setup, src)
    ensures var planned := Next(setup, s, o1);
            && planned.node.ToolExecution? && planned.toolToCall.Some?
            && var edited := Next(setup, planned, o2);
            && edited.node.HealingRouter?
            && var t := Next(setup, edited, o3);
            && AboutToCompileFirst(t, Source(o1.patch, src.bib))
            && |t.events| == |s.events| + 4 && t.events[..|s.events|] == s.events
            && t.events[|s.events|].Thinking? && t.events[|s.events| + 1] == ToolStart(EditLatexFiles)
            && t.events[|s.events| + 2] == ContentUpdate(MainTex, o1.patch)
            && t.events[|s.events| + 3] == ToolEnd(EditLatexFiles)
  {
    var edited := Next(setup, Next(setup, s, o1), o2);
    assert edited.source == Source(o1.patch, src.bib) && edited.lastTool == Some(EditLatexFiles);
  }

  lemma EditRound(setup: Setup, src: Source, s: State, o1: Oracle, o2: Oracle, o3: Oracle)
    requires StillLooking(setup, src, s) && !setup.modelPlans
    requires s.lastTool == Some(QueryLibraryGraphRag) ||
             (!setup.wantsEvidence && (setup.wantsListing ==> s.lastTool == Some(ListProjectFiles)) &&
              (setup.wantsAuthor || setup.wantsTitle) && s.lastTool != Some(EditLatexFiles))
    requires Key(setup, Source(o1.patch, src.bib)) != Key(setup, src)
    requires Inv(setup, s)
    ensures AboutToCompileFirst(Third(setup, s, o1, o2, o3), Source(o1.patch, src.bib))
    ensures Starts(Third(setup, s, o1, o2, o3).events) == Starts(s.events) + [EditLatexFiles]
  {
    EditNodesStart(setup, src, s, o1, o2, o3);
    OneStarted(s.events, Third(setup, s, o1, o2, o3).events, |s.events| + 1);
  }

  lemma PlainNodeStart(setup: Setup, src: Source, s: State, o: Oracle)
    requires StillLooking(setup, src, s) && !setup.modelPlans && !setup.wantsEvidence
    requires setup.wantsListing ==> s.lastTool == Some(ListProjectFiles)
    requires s.lastTool != Some(QueryLibraryGraphRag) && !setup.wantsAuthor && !setup.wantsTitle
    ensures var t := Next(setup, s, o);
            && AboutToCompileFirst(t, src)
            && |t.events| == |s.events| + 1 && t.events[..|s.events|] == s.events && t.events[|s.events|].Thinking?
  {
  }

  lemma PlainRound(setup: Setup, src: Source, s: State, o: Oracle)
    requires StillLooking(setup, src, s) && !setup.modelPlans && !setup.wantsEvidence
    requires setup.wantsListing ==> s.lastTool == Some(ListProjectFiles)
    requires s.lastTool != Some(QueryLibraryGraphRag) && !setup.wantsAuthor && !setup.wantsTitle
    ensures AboutToCompileFirst(Next(setup, s, o), src) && Starts(Next(setup, s, o).events) == Starts(s.events)
  {
    PlainNodeStart(setup, src, s, o);
    NoneStarted(s.events, Next(setup, s, o).events);
  }

  lemma CompileNodesEnd(setup: Setup, s: State, src: Source, o1: Oracle, o2: Oracle, o3: Oracle)
    requires AboutToCompileFirst(s, src) && o1.compiles
    ensures var compiled := Next(setup, s, o1);
            && compiled.node.HealingRouter?
            && var routed := Next(setup, compiled, o2);
            && routed.node.GenerateFinalAnswer?
            && var t := Next(setup, routed, o3);
            && t.node.Ended? && t.source == src && t.compiled == [src]
            && |t.events| == |s.events| + 4 && t.events[..|s.events|] == s.events
            && t.events[|s.events|] == ToolStart(CompileLatexE2b) && t.events[|s.events| + 1] == CompileAttempt(1, true)
            && t.events[|s.events| + 2] == ToolEnd(CompileLatexE2b)
            && t.events[|s.events| + 3] == Done(true, 1, false, src, Completed)
  {
  }

  /** The run is over after one compile, of this source, and says so. */
  ghost predicate EndedWell(s: State, src: Source) {
    && s.node.Ended? && s.source == src && s.compiled == [src]
    && s.events != [] && s.events[|s.events| - 1] == Done(true, 1, false, src, Completed)
  }

  lemma CompileRound(setup: Setup, s: State, src: Source, o1: Oracle, o2: Oracle, o3: Oracle)
    requires AboutToCompileFirst(s, src) && o1.compiles
    requires Inv(setup, s)
    ensures EndedWell(Third(setup, s, o1, o2, o3), src)
    ensures Starts(Third(setup, s, o1, o2, o3).events) == Starts(s.events) + [CompileLatexE2b]
  {
    CompileNodesEnd(setup, s, src, o1, o2, o3);
    OneStarted(s.events, Third(setup, s, o1, o2, o3).events, |s.events|);
  }

  /** The tools of a run without a model in which everything goes well. */
  function ToolsOf(setup: Setup): seq<Tool> {
    LookTools(setup) + (if Rewrites(setup) then [EditLatexFiles] else []) + [CompileLatexE2b]
  }

  function LookTools(setup: Setup): seq<Tool> {
    if setup.wantsEvidence then [QueryLibraryGraphRag] else if setup.wantsListing then [ListProjectFiles] else []
  }

  /** Whether the run rewrites main.tex. */
  predicate Rewrites(setup: Setup) { setup.wantsEvidence || setup.wantsAuthor || setup.wantsTitle }

  function LookLength(setup: Setup): nat { if setup.wantsEvidence || setup.wantsListing then 3 else 0 }

  function EditLength(setup: Setup): nat { if Rewrites(setup) then 3 else 1 }

  lemma Looked(setup: Setup, src: Source, os: seq<Oracle>)
    requires !setup.modelPlans && |os| >= LookLength(setup)
    ensures var s := After(setup, src, os[..LookLength(setup)]);
            && StillLooking(setup, src, s)
            && s.lastTool == (if setup.wantsEvidence then Some(QueryLibraryGraphRag)
                              else if setup.wantsListing then Some(ListProjectFiles) else None)
            && Starts(s.events) == LookTools(setup)
  {
    if setup.wantsEvidence || setup.wantsListing {
      LookedFirst(setup, src, os, 0, 3);
    } else {
      assert os[..0] == [];
      assert StillLooking(setup, src, Initial(setup, src));
    }
  }

  lemma LookedFirst(setup: Setup, src: Source, os: seq<Oracle>, k: nat, n: nat)
    requires !setup.modelPlans && |os| >= n && k == 0 && n == k + 3 && (setup.wantsEvidence || setup.wantsListing)
    ensures var tool := if setup.wantsEvidence then QueryLibraryGraphRag else ListProjectFiles;
            var s := After(setup, src, os[..n]);
            StillLooking(setup, src, s) && s.lastTool == Some(tool) && Starts(s.events) == [tool]
  {
    InitialLooks(setup, src, os, k);
    LookedAt(setup, src, os, k);
  }

  lemma LookedAt(setup: Setup, src: Source, os: seq<Oracle>, k: nat)
    requires !setup.modelPlans && k + 3 <= |os| && (setup.wantsEvidence || setup.wantsListing)
    requires var s := After(setup, src, os[..k]);
             StillLooking(setup, src, s) && s.lastTool == None && !s.hasEvidence && s.events == []
    ensures var tool := if setup.wantsEvidence then QueryLibraryGraphRag else ListProjectFiles;
            var s := After(setup, src, os[..k + 3]);
            StillLooking(setup, src, s) && s.lastTool == Some(tool) && Starts(s.events) == [tool]
  {
    ThirdAt(setup, src, os, k);
    LookRound(setup, src, After(setup, src, os[..k]), os[k], os[k + 1], os[k + 2]);
  }

  lemma InitialLooks(setup: Setup, src: Source, os: seq<Oracle>, k: nat)
    requires k == 0
    ensures var s := After(setup, src, os[..k]);
            StillLooking(setup, src, s) && s.lastTool == None && !s.hasEvidence && s.events == []
  {
    StartsInitially(setup, src, os);
  }

  lemma StartsInitially(setup: Setup, src: Source, os: seq<Oracle>)
    ensures After(setup, src, os[..0]) == Initial(setup, src)
  {
    assert os[..0] == [];
  }

  lemma LookRound(setup: Setup, src: Source, s: State, o1: Oracle, o2: Oracle, o3: Oracle)
    requires StillLooking(setup, src, s) && s.lastTool == None && !s.hasEvidence && s.events == []
    requires !setup.modelPlans && (setup.wantsEvidence || setup.wantsListing)
    requires Inv(setup, s)
    ensures var tool := if setup.wantsEvidence then QueryLibraryGraphRag else ListProjectFiles;
            var t := Third(setup, s, o1, o2, o3);
            StillLooking(setup, src, t) && t.lastTool == Some(tool) && Starts(t.events) == [tool]
  {
    var tool := if setup.wantsEvidence then QueryLibraryGraphRag else ListProjectFiles;
    LookNodesStart(setup, src, s, o1, o2, o3, tool);
    OneStarted([], Third(setup, s, o1, o2, o3).events, 1);
  }

  lemma Rewritten(setup: Setup, src: Source, os: seq<Oracle>, k: nat)
    requires !setup.modelPlans && k + 3 <= |os| && k == LookLength(setup) && Rewrites(setup)
    requires Key(setup, Source(os[k].patch, src.bib)) != Key(setup, src)
    ensures var s := After(setup, src, os[..k + 3]);
            && AboutToCompileFirst(s, Source(os[k].patch, src.bib))
            && Starts(s.events) == LookTools(setup) + [EditLatexFiles]
  {
    Looked(setup, src, os);
    ThirdAt(setup, src, os, k);
    EditRound(setup, src, After(setup, src, os[..k]), os[k], os[k + 1], os[k + 2]);
  }

  lemma LeftAlone(setup: Setup, src: Source, os: seq<Oracle>, k: nat)
    requires !setup.modelPlans && k < |os| && k == LookLength(setup) && !Rewrites(setup)
    ensures var s := After(setup, src, os[..k + 1]);
            AboutToCompileFirst(s, src) && Starts(s.events) == LookTools(setup)
  {
    Looked(setup, src, os);
    NodeAt(setup, src, os, k);
    PlainRound(setup, src, After(setup, src, os[..k]), os[k]);
  }

  lemma Prepared(setup: Setup, src: Source, p: string, os: seq<Oracle>, k: nat, n: nat)
    requires !setup.modelPlans && k == LookLength(setup) && n == k + EditLength(setup) && |os| >= n
    requires forall i :: 0 <= i < |os| ==> os[i].patch == p
    requires Rewrites(setup) ==> Key(setup, Source(p, src.bib)) != Key(setup, src)
    ensures var s := After(setup, src, os[..n]);
            && AboutToCompileFirst(s, if Rewrites(setup) then Source(p, src.bib) else src)
            && Starts(s.events) + [CompileLatexE2b] == ToolsOf(setup)
  {
    if Rewrites(setup) {
      Rewritten(setup, src, os, k);
    } else {
      LeftAlone(setup, src, os, k);
      assert LookTools(setup) + [] == LookTools(setup);
    }
  }

  /** Three more nodes after the compiler is chosen end the run. */
  lemma CompiledToEnd(setup: Setup, src: Source, final: Source, os: seq<Oracle>, k: nat)
    requires k + 3 <= |os| && AboutToCompileFirst(After(setup, src, os[..k]), final) && os[k].compiles
    ensures EndedWell(After(setup, src, os), final)
    ensures Starts(After(setup, src, os).events) == Starts(After(setup, src, os[..k]).events) + [CompileLatexE2b]
  {
    ThirdAt(setup, src, os, k);
    CompileRound(setup, After(setup, src, os[..k]), final, os[k], os[k + 1], os[k + 2]);
    EndedStays(setup, src, os, k + 3);
  }

  /**
   A run without a model that goes well, told by what is streamed: the library and then an edit if
   the message asks for evidence; else the file list if asked for, and an edit if another author or
   title is; then one compile, of the rewritten main.tex if there was an edit and of the untouched
   source if not; and a done event that reports it.
  */
  lemma RunWithoutModel(setup: Setup, src: Source, p: string, os: seq<Oracle>)
    requires !setup.modelPlans && |os| >= LookLength(setup) + EditLength(setup) + 3
    requires forall i :: 0 <= i < |os| ==> os[i].patch == p && os[i].compiles
    requires Rewrites(setup) ==> Key(setup, Source(p, src.bib)) != Key(setup, src)
    ensures var s := After(setup, src, os);
            var final := if Rewrites(setup) then Source(p, src.bib) else src;
            EndedWell(s, final) && Starts(s.events) == ToolsOf(setup)
  {
    var final := if Rewrites(setup) then Source(p, src.bib) else src;
    var k, n := LookLength(setup), LookLength(setup) + EditLength(setup);
    Prepared(setup, src, p, os, k, n);
    CompiledToEnd(setup, src, final, os, n);
  }

  /** In particular another author or title is written before anything is compiled, and that is what is compiled. */
  lemma RetitlingRun(setup: Setup, src: Source, p: string, os: seq<Oracle>)
    requires !setup.modelPlans && !setup.wantsEvidence && !setup.wantsListing && (setup.wantsAuthor || setup.wantsTitle)
    requires |os| >= 6 && forall i :: 0 <= i < |os| ==> os[i].patch == p && os[i].compiles
    requires Key(setup, Source(p, src.bib)) != Key(setup, src)
    ensures var s := After(setup, src, os);
            EndedWell(s, Source(p, src.bib)) && Starts(s.events) == [EditLatexFiles, CompileLatexE2b]
  {
    RunWithoutModel(setup, src, p, os);
    assert ToolsOf(setup) == [EditLatexFiles, CompileLatexE2b];
  }

  // ---- What a tool leaves behind --------------------------------------------------------------------

  /** The file that an edit names: under either key, or main.tex for want of a name. */
  predicate Names(input: ToolInput, file: File) {
    || input.targetFile == Some(file)
    || (input.targetFile.None? && input.filename == Some(file))
    || (input.targetFile.None? && input.filename.None? && file == MainTex)
  }

  predicate Executing(s: State, tool: Tool) {
    s.node.ToolExecution? && s.toolToCall.Some? && s.toolToCall.value.tool == tool
  }

  /** In any run, an edit under any of its three tool names streams and stores the given text, and compiles nothing. */
  lemma EditsAreStored(setup: Setup, src: Source, os: seq<Oracle>, o: Oracle, tool: Tool, file: File, content: string)
    requires tool == EditLatexFiles || tool == EditFile || tool == CreateFile
    ensures var s, t := After(setup, src, os), After(setup, src, os + [o]);
            Executing(s, tool) && Names(s.toolToCall.value.input, file) &&
            content == (match s.toolToCall.value.input.content case Some(c) => c case None => "") ==>
              && t.events == s.events + [ToolStart(tool), ContentUpdate(file, content), ToolEnd(tool)]
              && t.source.mainTex == (if file == MainTex then content else s.source.mainTex)
              && t.source.bib == (if file == ReferencesBib then content else s.source.bib)
              && t.compiled == s.compiled
  {
    OneMoreNode(setup, src, os, o);
  }

  /** Compiling, under either name, streams the next attempt with the compiler's verdict and leaves the source alone. */
  lemma CompilesAreStreamed(setup: Setup, src: Source, os: seq<Oracle>, o: Oracle, tool: Tool)
    requires tool == CompileLatexE2b || tool == RecompileLatex
    ensures var s, t := After(setup, src, os), After(setup, src, os + [o]);
            Executing(s, tool) ==>
              && t.events == s.events +
                             [ToolStart(tool), CompileAttempt(|s.compiled| + 1, o.compiles), ToolEnd(CompileLatexE2b)]
              && t.source == s.source && t.compiled == s.compiled + [s.source]
  {
    OneMoreNode(setup, src, os, o);
    if Executing(After(setup, src, os), tool) {
      CompileEvents(setup, After(setup, src, os), o, tool);
    }
  }

  lemma CompileEvents(setup: Setup, s: State, o: Oracle, tool: Tool)
    requires Inv(setup, s) && s.node.ToolExecution? && s.toolToCall.value.tool == tool
    requires tool == CompileLatexE2b || tool == RecompileLatex
    ensures var t := Next(setup, s, o);
            && t.events == s.events +
                           [ToolStart(tool), CompileAttempt(|s.compiled| + 1, o.compiles), ToolEnd(CompileLatexE2b)]
            && t.source == s.source && t.compiled == s.compiled + [s.source]
  {
    var added := [ToolStart(tool), CompileAttempt(|s.compiled| + 1, o.compiles), ToolEnd(CompileLatexE2b)];
    assert s.events + [added[0]] + [added[1]] + [added[2]] == s.events + added;
  }

  /** Every other tool leaves both texts and the compiler alone. */
  lemma OthersChangeNothing(setup: Setup, src: Source, os: seq<Oracle>, o: Oracle, tool: Tool)
    requires tool != EditLatexFiles && tool != EditFile && tool != CreateFile
    requires tool != CompileLatexE2b && tool != RecompileLatex
    ensures var s, t := After(setup, src, os), After(setup, src, os + [o]);
            Executing(s, tool) ==>
              && t.source == s.source && t.compiled == s.compiled
              && t.events == s.events + if tool.OtherTool? then [ToolStart(tool)] else [ToolStart(tool), ToolEnd(tool)]
  {
    OneMoreNode(setup, src, os, o);
  }

  // ---- What comes next ----------------------------------------------------------------------------------

  /** After a compile the run ends if it went well or was the third; else the next two nodes rewrite main.tex. */
  lemma RejectionIsHealed(setup: Setup, src: Source, os: seq<Oracle>, o: Oracle, o2: Oracle, o3: Oracle, o4: Oracle,
                          tool: Tool)
    requires tool == CompileLatexE2b || tool == RecompileLatex
    ensures var s, t := After(setup, src, os), After(setup, src, os + [o] + [o2]);
            var u := After(setup, src, os + [o] + [o2] + [o3] + [o4]);
            Executing(s, tool) ==>
              if o.compiles || |s.compiled| == 2 then t.node.GenerateFinalAnswer?
              else
                && u.events == t.events + [Thinking(Healing), ToolStart(EditLatexFiles),
                                           ContentUpdate(MainTex, o3.patch), ToolEnd(EditLatexFiles)]
                && u.source == Source(o3.patch, s.source.bib)
  {
    var s, t := After(setup, src, os), After(setup, src, os + [o] + [o2]);
    OneMoreNode(setup, src, os, o);
    OneMoreNode(setup, src, os + [o], o2);
    if Executing(s, tool) {
      CompileRoutes(setup, s, o, o2);
      if t.node.ReasonAndPlan? {
        OneMoreNode(setup, src, os + [o] + [o2], o3);
        OneMoreNode(setup, src, os + [o] + [o2] + [o3], o4);
        Heals(setup, t, o3, o4);
      }
    }
  }

  lemma CompileRoutes(setup: Setup, s: State, o: Oracle, o2: Oracle)
    requires Inv(setup, s) && s.node.ToolExecution?
    requires s.toolToCall.value.tool == CompileLatexE2b || s.toolToCall.value.tool == RecompileLatex
    ensures var t := Next(setup, s, o);
            && t.node.HealingRouter?
            && var u := Next(setup, t, o2);
            && u.source == s.source
            && if o.compiles || |s.compiled| == 2 then u.node.GenerateFinalAnswer?
               else u.node.ReasonAndPlan? && u.compileResult == Rejected
  {
  }

  lemma Heals(setup: Setup, s: State, o: Oracle, o2: Oracle)
    requires s.node.ReasonAndPlan? && s.compileResult == Rejected
    ensures var t := Next(setup, s, o);
            && t.node.ToolExecution? && t.toolToCall.Some?
            && var u := Next(setup, t, o2);
            && u.events == s.events + [Thinking(Healing), ToolStart(EditLatexFiles), ContentUpdate(MainTex, o.patch),
                                       ToolEnd(EditLatexFiles)]
            && u.source == Source(o.patch, s.source.bib)
  {
  }

  /** What the library told is always written into main.tex next, model or not. */
  lemma EvidenceIsInjected(setup: Setup, src: Source, os: seq<Oracle>, o: Oracle, o2: Oracle, o3: Oracle, o4: Oracle)
    ensures var s, u := After(setup, src, os), After(setup, src, os + [o] + [o2] + [o3] + [o4]);
            Executing(s, QueryLibraryGraphRag) ==>
              && u.events == s.events +
                             [ToolStart(QueryLibraryGraphRag), ToolEnd(QueryLibraryGraphRag), Thinking(Injecting),
                              ToolStart(EditLatexFiles), ContentUpdate(MainTex, o3.patch), ToolEnd(EditLatexFiles)]
              && u.source == Source(o3.patch, s.source.bib)
  {
    var s := After(setup, src, os);
    if Executing(s, QueryLibraryGraphRag) {
      OneMoreNode(setup, src, os, o);
      OneMoreNode(setup, src, os + [o], o2);
      OneMoreNode(setup, src, os + [o] + [o2], o3);
      OneMoreNode(setup, src, os + [o] + [o2] + [o3], o4);
      QueryRoutes(setup, s, o, o2);
      Injects(setup, After(setup, src, os + [o] + [o2]), o3, o4);
      TwoThenFour(s.events, ToolStart(QueryLibraryGraphRag), ToolEnd(QueryLibraryGraphRag), Thinking(Injecting),
                  ToolStart(EditLatexFiles), ContentUpdate(MainTex, o3.patch), ToolEnd(EditLatexFiles));
    }
  }

  lemma TwoThenFour(events: seq<Event>, a: Event, b: Event, c: Event, d: Event, e: Event, f: Event)
    ensures events + [a, b] + [c, d, e, f] == events + [a, b, c, d, e, f]
  {
  }

  lemma QueryRoutes(setup: Setup, s: State, o: Oracle, o2: Oracle)
    requires Inv(setup, s) && s.node.ToolExecution? && s.toolToCall.value.tool == QueryLibraryGraphRag
    ensures var t := Next(setup, s, o);
            && t.node.HealingRouter?
            && var u := Next(setup, t, o2);
            && u.node.ReasonAndPlan? && u.compileResult != Rejected && u.lastTool == Some(QueryLibraryGraphRag)
            && u.source == s.source
            && u.events == s.events + [ToolStart(QueryLibraryGraphRag), ToolEnd(QueryLibraryGraphRag)]
  {
  }

  lemma Injects(setup: Setup, s: State, o: Oracle, o2: Oracle)
    requires s.node.ReasonAndPlan? && s.compileResult != Rejected && s.lastTool == Some(QueryLibraryGraphRag)
    ensures var t := Next(setup, s, o);
            && t.node.ToolExecution? && t.toolToCall.Some?
            && var u := Next(setup, t, o2);
            && u.events == s.events + [Thinking(Injecting), ToolStart(EditLatexFiles), ContentUpdate(MainTex, o.patch),
                                       ToolEnd(EditLatexFiles)]
            && u.source == Source(o.patch, s.source.bib)
  {
  }

  /** Whenever nothing is to be healed or injected, the planner follows a model that names a tool. */
  lemma ModelIsFollowed(setup: Setup, src: Source, os: seq<Oracle>, o: Oracle, o2: Oracle)
    requires setup.modelPlans && o.plan.Some?
    ensures var s, t := After(setup, src, os), After(setup, src, os + [o] + [o2]);
            s.node.ReasonAndPlan? && s.compileResult != Rejected && s.lastTool != Some(QueryLibraryGraphRag) ==>
              s.events + [Thinking(CallingTool(o.plan.value.tool)), ToolStart(o.plan.value.tool)] <= t.events
  {
    var s := After(setup, src, os);
    if s.node.ReasonAndPlan? && s.compileResult != Rejected && s.lastTool != Some(QueryLibraryGraphRag) {
      OneMoreNode(setup, src, os, o);
      OneMoreNode(setup, src, os + [o], o2);
      FollowsModel(setup, s, o);
      ToolStarts(setup, After(setup, src, os + [o]), o2);
      var thought, start := Thinking(CallingTool(o.plan.value.tool)), ToolStart(o.plan.value.tool);
      assert s.events + [thought] + [start] == s.events + [thought, start];
    }
  }

  lemma FollowsModel(setup: Setup, s: State, o: Oracle)
    requires s.node.ReasonAndPlan? && s.compileResult != Rejected && s.lastTool != Some(QueryLibraryGraphRag)
    requires setup.modelPlans && o.plan.Some?
    ensures var t := Next(setup, s, o);
            && t.node.ToolExecution? && t.toolToCall == o.plan
            && t.events == s.events + [Thinking(CallingTool(o.plan.value.tool))]
  {
  }

  /** An edit goes to the compiler if the digest of the two stripped texts is new, and stops the run if it is not. */
  lemma EditIsRouted(setup: Setup, src: Source, os: seq<Oracle>, o: Oracle)
    ensures var s, t := After(setup, src, os), After(setup, src, os + [o]);
            var h := setup.digest(setup.strip(s.source.mainTex), setup.strip(s.source.bib));
            s.node.HealingRouter? && s.lastTool == Some(EditLatexFiles) ==>
              if h in s.seenHashes then
                && t.node.GenerateFinalAnswer? && t.events == s.events + [Thinking(Oscillating)]
                && t.seenHashes == s.seenHashes
              else
                && t.node.ToolExecution? && t.toolToCall.Some? && t.toolToCall.value.tool == CompileLatexE2b
                && t.events == s.events && t.seenHashes == s.seenHashes + [h]
  {
    OneMoreNode(setup, src, os, o);
  }

  /** The digest of the given texts counts as seen from the start. */
  lemma StartIsSeen(setup: Setup, src: Source)
    ensures After(setup, src, []).seenHashes == [setup.digest(setup.strip(src.mainTex), setup.strip(src.bib))]
  {
  }

  predicate Useless(tool: Tool) {
    && tool != EditLatexFiles && tool != CompileLatexE2b && tool != RecompileLatex
    && tool != ListProjectFiles && tool != QueryLibraryGraphRag
  }

  /**
   A run whose first tool, named by the model, is neither the edit tool under its own name, nor a
   compile, nor a look around, ends without compiling anything, whatever comes next.
  */
  lemma OtherToolsEndRun(setup: Setup, src: Source, os: seq<Oracle>)
    requires |os| >= 4 && setup.modelPlans && os[0].plan.Some? && Useless(os[0].plan.value.tool)
    ensures EndedIdly(After(setup, src, os)) && Starts(After(setup, src, os).events) == [os[0].plan.value.tool]
  {
    UselessPlanned(setup, src, os);
    UselessToEnd(setup, src, os, 1, os[0].plan.value.tool);
  }

  ghost predicate AboutToWaste(s: State, tool: Tool) {
    && s.node.ToolExecution? && s.toolToCall.Some? && s.toolToCall.value.tool == tool && Useless(tool)
    && s.compileCount == 0 && !s.oscillation && s.status == InProgress
    && s.compiled == [] && |s.events| == 1 && s.events[0].Thinking?
  }

  lemma UselessPlanned(setup: Setup, src: Source, os: seq<Oracle>)
    requires os != [] && setup.modelPlans && os[0].plan.Some? && Useless(os[0].plan.value.tool)
    ensures AboutToWaste(After(setup, src, os[..1]), os[0].plan.value.tool)
  {
    assert os[..0] == [];
    NodeAt(setup, src, os, 0);
    FirstPlanned(setup, src, os[0]);
    InProgressAtFirst(setup, src, os[0]);
  }

  lemma UselessToEnd(setup: Setup, src: Source, os: seq<Oracle>, k: nat, tool: Tool)
    requires k + 3 <= |os| && AboutToWaste(After(setup, src, os[..k]), tool)
    ensures EndedIdly(After(setup, src, os)) && Starts(After(setup, src, os).events) == [tool]
  {
    ThirdAt(setup, src, os, k);
    UselessRound(setup, After(setup, src, os[..k]), os[k], os[k + 1], os[k + 2]);
    EndedStays(setup, src, os, k + 3);
  }

  /** The run is over without a compile, in the middle of its work. */
  ghost predicate EndedIdly(s: State) {
    && s.node.Ended? && s.compiled == []
    && s.events != [] && s.events[|s.events| - 1] == Done(false, 0, false, s.source, InProgress)
  }

  lemma UselessRound(setup: Setup, s: State, o1: Oracle, o2: Oracle, o3: Oracle)
    requires Inv(setup, s) && s.toolToCall.Some? && AboutToWaste(s, s.toolToCall.value.tool)
    ensures EndedIdly(Third(setup, s, o1, o2, o3))
    ensures Starts(Third(setup, s, o1, o2, o3).events) == [s.toolToCall.value.tool]
  {
    UselessTool(setup, s, o1, o2, o3);
    NoneStarted([], s.events);
    OneStarted(s.events, Third(setup, s, o1, o2, o3).events, 1);
  }

  lemma InProgressAtFirst(setup: Setup, src: Source, o: Oracle)
    ensures !Next(setup, Initial(setup, src), o).oscillation && Next(setup, Initial(setup, src), o).status == InProgress
  {
  }

  lemma UselessTool(setup: Setup, s: State, o1: Oracle, o2: Oracle, o3: Oracle)
    requires Inv(setup, s) && s.node.ToolExecution? && s.compileCount == 0 && !s.oscillation && s.status == InProgress
    requires Useless(s.toolToCall.value.tool)
    ensures var executed := Next(setup, s, o1);
            && executed.node.HealingRouter?
            && var routed := Next(setup, executed, o2);
            && routed.node.GenerateFinalAnswer?
            && var t := Next(setup, routed, o3);
            && t.node.Ended? && t.compiled == s.compiled && s.events <= t.events && |t.events| > |s.events| + 1
            && t.events[|s.events|] == ToolStart(s.toolToCall.value.tool)
            && (forall i :: |s.events| < i < |t.events| ==> !t.events[i].ToolStart?)
            && t.events[|t.events| - 1] == Done(false, 0, false, t.source, InProgress)
  {
  }

  // ---- How a run reports its end ----------------------------------------------------------------------

  /** The verdict of the last compile streamed. */
  function LastVerdict(events: seq<Event>): Option<bool> {
    if events == [] then None
    else if events[|events| - 1].CompileAttempt? then Some(events[|events| - 1].success)
    else LastVerdict(events[..|events| - 1])
  }

  lemma {:induction false} NoVerdict(before: seq<Event>, after: seq<Event>)
    requires before <= after && forall i :: |before| <= i < |after| ==> !after[i].CompileAttempt?
    ensures LastVerdict(after) == LastVerdict(before)
    decreases |after|
  {
    if |after| == |before| {
      assert after == before;
    } else {
      NoVerdict(before, after[..|after| - 1]);
    }
  }

  predicate Oscillated(events: seq<Event>) { Thinking(Oscillating) in events }

  ghost predicate Reports(s: State) {
    && (s.compileResult.NotRun? <==> LastVerdict(s.events) == None)
    && (s.compileResult == Succeeded <==> LastVerdict(s.events) == Some(true))
    && (s.oscillation <==> Oscillated(s.events))
    && if s.node.GenerateFinalAnswer? || s.node.Ended? then
         && (s.oscillation ==> s.compileResult != Succeeded)
         && s.status == if s.oscillation then OscillationStopped
                        else if s.compileResult == Succeeded then Completed
                        else if s.compileCount == MAX_ATTEMPTS then Failed
                        else InProgress
       else s.status == InProgress && !s.oscillation
  }

  /** Events that are no verdict and no oscillation change no report. */
  lemma ReportsOn(s: State, t: State)
    requires Reports(s) && s.events <= t.events
    requires forall i :: |s.events| <= i < |t.events| ==>
               !t.events[i].CompileAttempt? && t.events[i] != Thinking(Oscillating)
    requires t.compileResult == s.compileResult && t.oscillation == s.oscillation && t.status == s.status
    requires !s.node.GenerateFinalAnswer? && !s.node.Ended? && !t.node.GenerateFinalAnswer? && !t.node.Ended?
    ensures Reports(t)
  {
    NoVerdict(s.events, t.events);
    assert forall i :: 0 <= i < |s.events| ==> s.events[i] == t.events[i];
  }

  lemma ExecuteShape(s: State, o: Oracle)
    requires s.toolToCall.Some?
    ensures var t := Execute(s, o);
            && s.events <= t.events && t.node.HealingRouter? && t.oscillation == s.oscillation && t.status == s.status
            && (forall i :: |s.events| <= i < |t.events| ==> t.events[i] != Thinking(Oscillating))
            && if Compiles(s.toolToCall.value.tool) then
                 && |t.events| == |s.events| + 3
                 && t.compileResult == (if o.compiles then Succeeded else Rejected)
                 && t.events[|s.events| + 1] == CompileAttempt(s.compileCount + 1, o.compiles)
                 && !t.events[|s.events| + 2].CompileAttempt?
               else
                 && t.compileResult == s.compileResult
                 && (forall i :: |s.events| <= i < |t.events| ==> !t.events[i].CompileAttempt?)
  {
  }

  lemma ExecuteReports(s: State, o: Oracle)
    requires Reports(s) && s.node.ToolExecution? && s.toolToCall.Some?
    ensures Reports(Execute(s, o))
  {
    ExecuteShape(s, o);
    if Compiles(s.toolToCall.value.tool) {
      VerdictStreamed(s, Execute(s, o), CompileAttempt(s.compileCount + 1, o.compiles));
    } else {
      ReportsOn(s, Execute(s, o));
    }
  }

  lemma VerdictStreamed(s: State, t: State, e: Event)
    requires Reports(s) && s.node.ToolExecution? && t.node.HealingRouter?
    requires t.oscillation == s.oscillation && t.status == s.status
    requires s.events <= t.events && |t.events| == |s.events| + 3 && t.events[|s.events| + 1] == e && e.CompileAttempt?
    requires !t.events[|s.events| + 2].CompileAttempt?
    requires forall i :: |s.events| <= i < |t.events| ==> t.events[i] != Thinking(Oscillating)
    requires t.compileResult == if e.success then Succeeded else Rejected
    ensures Reports(t)
  {
    var upTo := t.events[..|s.events| + 2];
    assert upTo[|s.events| + 1] == e;
    NoVerdict(upTo, t.events);
    assert forall i :: 0 <= i < |s.events| ==> s.events[i] == t.events[i];
  }

  lemma PlanShape(setup: Setup, s: State, o: Oracle)
    requires s.node.ReasonAndPlan?
    ensures var t := Plan(setup, s, o);
            && s.events <= t.events && t.compileResult == s.compileResult
            && t.oscillation == s.oscillation && t.status == s.status
            && (forall i :: |s.events| <= i < |t.events| ==>
                  t.events[i].Thinking? && t.events[i] != Thinking(Oscillating))
  {
  }

  lemma PlanReports(setup: Setup, s: State, o: Oracle)
    requires Inv(setup, s) && Reports(s) && s.node.ReasonAndPlan?
    ensures Reports(Plan(setup, s, o))
  {
    PlanKeeps(setup, s, o);
    PlanShape(setup, s, o);
    ReportsOn(s, Plan(setup, s, o));
  }

  /** The router either goes on silently or ends the run, and then reports how. */
  lemma RouteShape(setup: Setup, s: State)
    requires Inv(setup, s) && s.node.HealingRouter? && s.status == InProgress && !s.oscillation
    ensures var t := Route(setup, s);
            && t.compileResult == s.compileResult && !t.node.Ended?
            && if t.node.GenerateFinalAnswer? then
                 if t.oscillation then
                   && t.events == s.events + [Thinking(Oscillating)] && t.status == OscillationStopped
                   && t.compileResult != Succeeded
                 else
                   && t.events == s.events
                   && t.status == if t.compileResult == Succeeded then Completed
                                  else if t.compileCount == MAX_ATTEMPTS then Failed
                                  else InProgress
               else t.events == s.events && t.status == InProgress && !t.oscillation
  {
  }

  lemma RouteReports(setup: Setup, s: State)
    requires Inv(setup, s) && Reports(s) && s.node.HealingRouter?
    ensures Reports(Route(setup, s))
  {
    RouteShape(setup, s);
    NoVerdict(s.events, Route(setup, s).events);
  }

  lemma {:induction false} RunReports(setup: Setup, src: Source, os: seq<Oracle>)
    ensures Reports(After(setup, src, os))
    decreases |os|
  {
    if os != [] {
      var s, o := After(setup, src, os[..|os| - 1]), os[|os| - 1];
      RunReports(setup, src, os[..|os| - 1]);
      match s.node
      case ReasonAndPlan => PlanReports(setup, s, o);
      case ToolExecution => ExecuteReports(s, o);
      case HealingRouter => RouteReports(setup, s);
      case GenerateFinalAnswer => NoVerdict(s.events, Answer(s).events);
      case Ended =>
    }
  }

  /**
   The done event tells how the run ended: success is the verdict of the last compile streamed, the
   count is that of the attempts, and the status says whether the run was stopped for oscillating,
   completed, failed three times, or ended without either.
  */
  lemma DoneTellsHowItEnded(setup: Setup, src: Source, os: seq<Oracle>)
    ensures var s := After(setup, src, os);
            s.node.Ended? ==>
              && s.events != [] && s.events[|s.events| - 1].Done?
              && var done := s.events[|s.events| - 1];
              && (done.success <==> LastVerdict(s.events) == Some(true))
              && done.compileCount == |Attempts(s.events)|
              && (done.oscillation <==> Oscillated(s.events))
              && done.status == if Oscillated(s.events) then OscillationStopped
                                else if LastVerdict(s.events) == Some(true) then Completed
                                else if |Attempts(s.events)| == 3 then Failed
                                else InProgress
  {
    RunReports(setup, src, os);
    StreamIsFaithful(setup, src, os);
  }
}
