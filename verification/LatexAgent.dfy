/**
 The LaTeX co-author agent: a graph of four nodes that plans a tool call, executes it, routes the
 result, and finally answers. The language model, the compiler and the text rewriting are oracles
 that may answer anything; the digest is any function.
*/
module LatexAgent {
  import opened Wrappers
  import opened Sequences

  datatype Node = ReasonAndPlan | ToolExecution | HealingRouter | GenerateFinalAnswer | Ended

  /** The tools that tool_execution knows by name, and any other name the model may come up with. */
  datatype Tool =
    | EditLatexFiles | EditFile | CreateFile
    | ReadFile | DeleteFile | ListProjectFiles | QueryLibraryGraphRag
    | CompileLatexE2b | RecompileLatex
    | OtherTool(name: string)

  datatype File = MainTex | ReferencesBib | OtherFile(name: string)

  /** An argument that is missing and one that is the empty string count alike as None. */
  datatype ToolInput = ToolInput(targetFile: Option<File>, filename: Option<File>, content: Option<string>)

  datatype ToolCall = ToolCall(tool: Tool, input: ToolInput)

  datatype Source = Source(mainTex: string, bib: string)

  datatype Status = InProgress | OscillationStopped | Completed | Failed

  datatype CompileResult = NotRun | Rejected | Succeeded

  datatype Thought = Healing | Injecting | CallingTool(tool: Tool) | Searching | Listing | Retitling | Compiling
      | Oscillating

  datatype Event =
    | Thinking(thought: Thought)
    | ToolStart(tool: Tool)
    | ContentUpdate(targetFile: File, content: string)
    | ToolEnd(tool: Tool)
    | CompileAttempt(attempt: int, success: bool)
    | Done(success: bool, compileCount: int, oscillation: bool, source: Source, status: Status)

  /** What stays fixed during one run: what the message asks for, whether a model can plan, and the digest. */
  datatype Setup = Setup(wantsEvidence: bool, wantsListing: bool, wantsAuthor: bool, wantsTitle: bool,
                         modelPlans: bool, digest: (string, string) -> string, strip: string -> string)

  /** What the world answers during one node: rewritten source, the model's tool call if any, the compiler's verdict. */
  datatype Oracle = Oracle(patch: string, plan: Option<ToolCall>, compiles: bool)

  /** The shared state; `compiled` logs the sources handed to the compiler, `events` what was streamed. */
  datatype State = State(
    node: Node,
    source: Source,
    compileCount: int, maxCompileAttempts: int,
    seenHashes: seq<string>, oscillation: bool,
    compileResult: CompileResult,
    toolToCall: Option<ToolCall>, lastTool: Option<Tool>,
    hasEvidence: bool, status: Status,
    compiled: seq<Source>,
    events: seq<Event>)

  const MAX_ATTEMPTS := 3

  /** The digest of the two stripped texts, which the program joins with a separator before hashing. */
  function Key(setup: Setup, src: Source): string {
    setup.digest(setup.strip(src.mainTex), setup.strip(src.bib))
  }

  function Initial(setup: Setup, src: Source): State {
    State(ReasonAndPlan, src, 0, MAX_ATTEMPTS, [Key(setup, src)], false, NotRun, None, None, false, InProgress, [], [])
  }

  // ---- The four nodes -----------------------------------------------------------------------------

  function NoInput(): ToolInput { ToolInput(None, None, None) }

  function EditMain(content: string): ToolCall {
    ToolCall(EditLatexFiles, ToolInput(Some(MainTex), None, Some(content)))
  }

  /** The model is asked, and names a tool; a failed call and an empty name count as no call. */
  predicate ModelCalls(setup: Setup, o: Oracle) {
    setup.modelPlans && o.plan.Some?
  }

  function Planned(s: State, call: ToolCall, thought: Thought): State {
    s.(toolToCall := Some(call), node := ToolExecution, events := s.events + [Thinking(thought)])
  }

  function Plan(setup: Setup, s: State, o: Oracle): State {
    if s.compileResult == Rejected then Planned(s, EditMain(o.patch), Healing)
    else if s.lastTool == Some(QueryLibraryGraphRag) then Planned(s, EditMain(o.patch), Injecting)
    else if ModelCalls(setup, o) then Planned(s, o.plan.value, CallingTool(o.plan.value.tool))
    else if setup.wantsEvidence && !s.hasEvidence then Planned(s, ToolCall(QueryLibraryGraphRag, NoInput()), Searching)
    else if setup.wantsListing && s.lastTool != Some(ListProjectFiles)
        then Planned(s, ToolCall(ListProjectFiles, NoInput()), Listing)
    else if (setup.wantsAuthor || setup.wantsTitle) && s.lastTool != Some(EditLatexFiles)
        then Planned(s, EditMain(o.patch), Retitling)
    else if s.compileResult.NotRun? then Planned(s, ToolCall(CompileLatexE2b, NoInput()), Compiling)
    else s.(toolToCall := None, node := GenerateFinalAnswer)
  }

  predicate Edits(tool: Tool) { tool == EditLatexFiles || tool == EditFile || tool == CreateFile }

  predicate Compiles(tool: Tool) { tool == CompileLatexE2b || tool == RecompileLatex }

  predicate Reads(tool: Tool) {
    tool == ReadFile || tool == DeleteFile || tool == ListProjectFiles || tool == QueryLibraryGraphRag
  }

  /** The first name that is given and not empty, or main.tex. */
  function Target(input: ToolInput): File {
    if input.targetFile.Some? then input.targetFile.value
    else if input.filename.Some? then input.filename.value
    else MainTex
  }

  function Content(input: ToolInput): string { if input.content.Some? then input.content.value else "" }

  /** edit_latex_files: only the two known files exist. */
  function Edited(src: Source, target: File, content: string): Source {
    if target == MainTex then src.(mainTex := content)
    else if target == ReferencesBib then src.(bib := content)
    else src
  }

  function Execute(s: State, o: Oracle): State
    requires s.toolToCall.Some?
  {
    var tool, input := s.toolToCall.value.tool, s.toolToCall.value.input;
    var t := s.(node := HealingRouter, events := s.events + [ToolStart(tool)]);
    if Edits(tool) then
      var target, content := Target(input), Content(input);
      t.(lastTool := Some(tool), source := Edited(s.source, target, content),
         events := t.events + [ContentUpdate(target, content)] + [ToolEnd(tool)])
    else if Compiles(tool) then
      t.(lastTool := Some(CompileLatexE2b), compileCount := s.compileCount + 1,
         compileResult := if o.compiles then Succeeded else Rejected,
         compiled := s.compiled + [s.source],
         events := t.events + [CompileAttempt(s.compileCount + 1, o.compiles)] + [ToolEnd(CompileLatexE2b)])
    else if Reads(tool) then
      t.(lastTool := Some(tool), hasEvidence := s.hasEvidence || tool == QueryLibraryGraphRag,
         events := t.events + [ToolEnd(tool)])
    else t.(lastTool := Some(tool))
  }

  function Route(setup: Setup, s: State): State {
    if s.lastTool == Some(EditLatexFiles) then
      var h := Key(setup, s.source);
      if h in s.seenHashes then
        s.(oscillation := true, status := OscillationStopped, node := GenerateFinalAnswer,
           events := s.events + [Thinking(Oscillating)])
      else
        s.(seenHashes := s.seenHashes + [h], toolToCall := Some(ToolCall(CompileLatexE2b, NoInput())),
           node := ToolExecution)
    else if s.lastTool == Some(CompileLatexE2b) then
      if s.compileResult == Succeeded then s.(status := Completed, node := GenerateFinalAnswer)
      else if s.compileCount >= s.maxCompileAttempts then s.(status := Failed, node := GenerateFinalAnswer)
      else s.(node := ReasonAndPlan)
    else if s.lastTool == Some(QueryLibraryGraphRag) || s.lastTool == Some(ListProjectFiles)
        then s.(node := ReasonAndPlan)
    else s.(node := GenerateFinalAnswer)
  }

  function Answer(s: State): State {
    s.(node := Ended,
       events := s.events + [Done(s.compileResult == Succeeded, s.compileCount, s.oscillation, s.source, s.status)])
  }

  /** One node execution. */
  function Next(setup: Setup, s: State, o: Oracle): State
    requires s.node.ToolExecution? ==> s.toolToCall.Some?
  {
    match s.node
    case ReasonAndPlan => Plan(setup, s, o)
    case ToolExecution => Execute(s, o)
    case HealingRouter => Route(setup, s)
    case GenerateFinalAnswer => Answer(s)
    case Ended => s
  }

  // ---- Control: what every node keeps -------------------------------------------------------------

  ghost function Hashes(setup: Setup, srcs: seq<Source>): seq<string> {
    seq(|srcs|, i requires 0 <= i < |srcs| => Key(setup, srcs[i]))
  }

  /** The digests of the compiled sources: all seen before, and all different. */
  ghost predicate CompiledOnce(setup: Setup, seen: seq<string>, compiled: seq<Source>, count: int) {
    && seen != [] && NoDuplicates(seen)
    && NoDuplicates(Hashes(setup, compiled))
    && (forall i :: 0 <= i < |compiled| ==> Key(setup, compiled[i]) in seen)
    && |compiled| == count
  }

  ghost predicate LastSeen(setup: Setup, src: Source, seen: seq<string>) {
    seen != [] && Key(setup, src) == seen[|seen| - 1]
  }

  ghost predicate NotYetCompiled(setup: Setup, src: Source, compiled: seq<Source>) {
    forall i :: 0 <= i < |compiled| ==> Key(setup, compiled[i]) != Key(setup, src)
  }

  /** The last compiled source is this one. */
  ghost predicate JustCompiled(src: Source, compiled: seq<Source>) {
    compiled != [] && compiled[|compiled| - 1] == src
  }

  ghost predicate Control(setup: Setup, s: State) {
    match s.node
    case ReasonAndPlan =>
      && LastSeen(setup, s.source, s.seenHashes) && s.compileCount < MAX_ATTEMPTS
      && (s.compileResult == NotRun || s.compileResult == Rejected)
      && (s.compileResult == NotRun <==> s.compileCount == 0)
      && (s.compileResult == NotRun ==>
            s.lastTool == None || s.lastTool == Some(ListProjectFiles) || s.lastTool == Some(QueryLibraryGraphRag))
    case ToolExecution =>
      && s.toolToCall.Some? && LastSeen(setup, s.source, s.seenHashes) && s.compileCount < MAX_ATTEMPTS
      && s.compileResult != Succeeded
      && (s.compileResult == NotRun <==> s.compileCount == 0)
      && (s.compileResult == Rejected ==>
            s.toolToCall.value.tool == EditLatexFiles || s.toolToCall.value.tool == CompileLatexE2b)
      && (Compiles(s.toolToCall.value.tool) ==> NotYetCompiled(setup, s.source, s.compiled))
    case HealingRouter =>
      && s.lastTool.Some? && s.lastTool != Some(RecompileLatex)
      && (s.lastTool == Some(CompileLatexE2b) ==>
            s.compileResult != NotRun && LastSeen(setup, s.source, s.seenHashes) && JustCompiled(s.source, s.compiled)
                && 0 < s.compileCount <= MAX_ATTEMPTS)
      && (s.lastTool != Some(CompileLatexE2b) ==> s.compileResult != Succeeded && s.compileCount < MAX_ATTEMPTS)
      && (s.lastTool != Some(CompileLatexE2b) && s.lastTool != Some(EditLatexFiles) ==>
            s.compileResult == NotRun && (Edits(s.lastTool.value) || LastSeen(setup, s.source, s.seenHashes)))
      && (s.compileResult == NotRun <==> s.compileCount == 0)
    case GenerateFinalAnswer => s.compileResult == Succeeded ==> JustCompiled(s.source, s.compiled)
    case Ended => s.compileResult == Succeeded ==> JustCompiled(s.source, s.compiled)
  }

  ghost predicate Inv(setup: Setup, s: State) {
    && s.maxCompileAttempts == MAX_ATTEMPTS && 0 <= s.compileCount <= MAX_ATTEMPTS
    && CompiledOnce(setup, s.seenHashes, s.compiled, s.compileCount) && Control(setup, s)
  }

  lemma PlanKeeps(setup: Setup, s: State, o: Oracle)
    requires Inv(setup, s) && s.node.ReasonAndPlan?
    ensures Inv(setup, Plan(setup, s, o))
    ensures Plan(setup, s, o).node.ToolExecution?
  {
  }

  lemma HashesGrow(setup: Setup, srcs: seq<Source>, src: Source)
    requires NoDuplicates(Hashes(setup, srcs))
    requires forall i :: 0 <= i < |srcs| ==> Key(setup, srcs[i]) != Key(setup, src)
    ensures NoDuplicates(Hashes(setup, srcs + [src]))
  {
    var hs := Hashes(setup, srcs + [src]);
    assert forall i :: 0 <= i < |srcs| ==> hs[i] == Hashes(setup, srcs)[i] == Key(setup, srcs[i]);
  }

  /** A source whose digest is none of the compiled ones may be compiled. */
  lemma CompileKeepsLog(setup: Setup, seen: seq<string>, compiled: seq<Source>, count: int, src: Source)
    requires CompiledOnce(setup, seen, compiled, count)
    requires LastSeen(setup, src, seen) && NotYetCompiled(setup, src, compiled)
    ensures CompiledOnce(setup, seen, compiled + [src], count + 1)
    ensures JustCompiled(src, compiled + [src])
  {
    HashesGrow(setup, compiled, src);
  }

  lemma ExecuteKeeps(setup: Setup, s: State, o: Oracle)
    requires Inv(setup, s) && s.node.ToolExecution?
    ensures Inv(setup, Execute(s, o))
  {
    if Compiles(s.toolToCall.value.tool) {
      CompileKeepsLog(setup, s.seenHashes, s.compiled, s.compileCount, s.source);
    }
  }

  /** An edited source with a new digest is remembered and has not been compiled. */
  lemma NewSourceKeepsLog(setup: Setup, seen: seq<string>, compiled: seq<Source>, count: int, src: Source)
    requires CompiledOnce(setup, seen, compiled, count) && Key(setup, src) !in seen
    ensures CompiledOnce(setup, seen + [Key(setup, src)], compiled, count)
    ensures LastSeen(setup, src, seen + [Key(setup, src)]) && NotYetCompiled(setup, src, compiled)
  {
  }

  lemma RouteEditKeeps(setup: Setup, s: State)
    requires Inv(setup, s) && s.node.HealingRouter? && s.lastTool == Some(EditLatexFiles)
    ensures Inv(setup, Route(setup, s))
  {
    if Key(setup, s.source) !in s.seenHashes {
      NewSourceKeepsLog(setup, s.seenHashes, s.compiled, s.compileCount, s.source);
    }
  }

  lemma RouteKeeps(setup: Setup, s: State)
    requires Inv(setup, s) && s.node.HealingRouter?
    ensures Inv(setup, Route(setup, s))
  {
    if s.lastTool == Some(EditLatexFiles) {
      RouteEditKeeps(setup, s);
    }
  }

  lemma NextKeeps(setup: Setup, s: State, o: Oracle)
    requires Inv(setup, s)
    ensures Inv(setup, Next(setup, s, o))
  {
    match s.node
    case ReasonAndPlan => PlanKeeps(setup, s, o);
    case ToolExecution => ExecuteKeeps(setup, s, o);
    case HealingRouter => RouteKeeps(setup, s);
    case GenerateFinalAnswer =>
    case Ended =>
  }

  // ---- Whole runs ---------------------------------------------------------------------------------

  lemma InitialInv(setup: Setup, src: Source)
    ensures Inv(setup, Initial(setup, src))
  {
  }

  /** The state after as many node executions as there are oracle answers, whatever they are. */
  ghost function After(setup: Setup, src: Source, os: seq<Oracle>): (s: State)
    ensures Inv(setup, s)
    decreases |os|
  {
    if os == [] then
      InitialInv(setup, src);
      Initial(setup, src)
    else
      var t := After(setup, src, os[..|os| - 1]);
      NextKeeps(setup, t, os[|os| - 1]);
      Next(setup, t, os[|os| - 1])
  }

  /** How many nodes were executed before the run ended. */
  ghost function Executions(setup: Setup, src: Source, os: seq<Oracle>): nat {
    if os == [] then 0
    else
      var front := os[..|os| - 1];
      Executions(setup, src, front) + if After(setup, src, front).node.Ended? then 0 else 1
  }

  /**
   Safety over every run: at most three compiles, no digest seen twice, no two compiles of sources
   with one digest, and the planner never leaves without a tool.
  */
  lemma RunIsSafe(setup: Setup, src: Source, os: seq<Oracle>)
    ensures var s := After(setup, src, os);
            && s.compileCount <= s.maxCompileAttempts == 3
            && NoDuplicates(s.seenHashes)
            && |s.compiled| == s.compileCount
            && (forall i, j :: 0 <= i < j < |s.compiled| ==> Key(setup, s.compiled[i]) != Key(setup, s.compiled[j]))
            && (s.node.ReasonAndPlan? ==> forall o :: Next(setup, s, o).node.ToolExecution?)
            && (s.node.ToolExecution? && s.toolToCall.Some? && Compiles(s.toolToCall.value.tool) ==>
                  Key(setup, s.source) == s.seenHashes[|s.seenHashes| - 1])
  {
    var s := After(setup, src, os);
    CompiledKeysDiffer(setup, s.seenHashes, s.compiled, s.compileCount);
    if s.node.ReasonAndPlan? {
      forall o
        ensures Next(setup, s, o).node.ToolExecution?
      {
        PlanKeeps(setup, s, o);
      }
    }
  }

  lemma CompiledKeysDiffer(setup: Setup, seen: seq<string>, compiled: seq<Source>, count: int)
    requires CompiledOnce(setup, seen, compiled, count)
    ensures forall i, j :: 0 <= i < j < |compiled| ==> Key(setup, compiled[i]) != Key(setup, compiled[j])
  {
    forall i, j | 0 <= i < j < |compiled|
      ensures Key(setup, compiled[i]) != Key(setup, compiled[j])
    {
      assert Hashes(setup, compiled)[i] == Key(setup, compiled[i]);
      assert Hashes(setup, compiled)[j] == Key(setup, compiled[j]);
    }
  }

  // ---- Termination --------------------------------------------------------------------------------

  /** An upper bound on the executions still to come if no file list and no library query is executed any more. */
  ghost function Rank(s: State): int {
    var left := 5 * (MAX_ATTEMPTS - s.compileCount);
    match s.node
    case ReasonAndPlan => left + 1
    case ToolExecution => if s.toolToCall.Some? && Compiles(s.toolToCall.value.tool) then left - 2 else left
    case HealingRouter =>
      if s.lastTool == Some(CompileLatexE2b) || s.lastTool == Some(ListProjectFiles)
          || s.lastTool == Some(QueryLibraryGraphRag)
      then left + 2 else left - 1
    case GenerateFinalAnswer => 1
    case Ended => 0
  }

  /** The node executes a tool after which the planner is free again. */
  predicate LooksAround(s: State) {
    && s.node.ToolExecution? && s.toolToCall.Some?
    && (s.toolToCall.value.tool == ListProjectFiles || s.toolToCall.value.tool == QueryLibraryGraphRag)
  }

  lemma RankFalls(setup: Setup, s: State, o: Oracle)
    requires Inv(setup, s) && !s.node.Ended?
    ensures Rank(Next(setup, s, o)) < Rank(s) + if LooksAround(s) then 3 else 0
    ensures Rank(s) >= 1
  {
    match s.node
    case ReasonAndPlan => PlanKeeps(setup, s, o);
    case ToolExecution =>
    case HealingRouter => assert Control(setup, s);
    case GenerateFinalAnswer =>
  }

  ghost function Occurrences(events: seq<Event>, e: Event): nat {
    if events == [] then 0
    else Occurrences(events[..|events| - 1], e) + if events[|events| - 1] == e then 1 else 0
  }

  lemma OneMoreEvent(events: seq<Event>, x: Event, e: Event)
    ensures Occurrences(events + [x], e) == Occurrences(events, e) + if x == e then 1 else 0
  {
    assert (events + [x])[..|events|] == events;
  }

  ghost function Seen(s: State, e: Event): nat { Occurrences(s.events, e) }

  /** The planner streams one event, or none when it leaves without a tool. */
  lemma PlanAdds(setup: Setup, s: State, o: Oracle)
    requires s.node.ReasonAndPlan?
    ensures var t := Plan(setup, s, o);
            if t.node.ToolExecution? then |t.events| == |s.events| + 1 && t.events[..|s.events|] == s.events
            else t.events == s.events
  {
  }

  lemma PlanLogs(setup: Setup, s: State, o: Oracle, e: Event)
    requires s.node.ReasonAndPlan?
    ensures var t := Plan(setup, s, o);
            && (t.node.ToolExecution? ==> |t.events| > |s.events|)
            && Seen(t, e) == Seen(s, e) + if t.node.ToolExecution? && t.events[|s.events|] == e then 1 else 0
  {
    PlanAdds(setup, s, o);
    if Plan(setup, s, o).node.ToolExecution? {
      LoggedLast(s.events, Plan(setup, s, o).events, e);
    }
  }

  lemma LoggedLast(before: seq<Event>, after: seq<Event>, e: Event)
    requires |after| == |before| + 1 && after[..|before|] == before
    ensures Occurrences(after, e) == Occurrences(before, e) + if after[|before|] == e then 1 else 0
  {
  }

  predicate Quiet(more: seq<Event>) {
    forall i :: 0 <= i < |more| ==> !more[i].ToolStart? && !more[i].Thinking?
  }

  /** After the start event, executing a tool streams neither a start nor a thought. */
  lemma ExecuteAdds(s: State, o: Oracle) returns (more: seq<Event>)
    requires s.toolToCall.Some?
    ensures Execute(s, o).events == s.events + [ToolStart(s.toolToCall.value.tool)] + more && Quiet(more)
  {
    var started := s.events + [ToolStart(s.toolToCall.value.tool)];
    more := Execute(s, o).events[|started|..];
  }

  lemma {:induction false} QuietAddsNothing(events: seq<Event>, more: seq<Event>, e: Event)
    requires Quiet(more) && (e.ToolStart? || e.Thinking?)
    ensures Occurrences(events + more, e) == Occurrences(events, e)
    decreases |more|
  {
    if more == [] {
      assert events + more == events;
    } else {
      var front, last := more[..|more| - 1], more[|more| - 1];
      assert events + more == events + front + [last];
      OneMoreEvent(events + front, last, e);
      QuietAddsNothing(events, front, e);
    }
  }

  lemma ExecuteLogs(s: State, o: Oracle, e: Event)
    requires s.toolToCall.Some? && (e.ToolStart? || e.Thinking?)
    ensures Seen(Execute(s, o), e) == Seen(s, e) + if e == ToolStart(s.toolToCall.value.tool) then 1 else 0
  {
    var started := ToolStart(s.toolToCall.value.tool);
    var more := ExecuteAdds(s, o);
    OneMoreEvent(s.events, started, e);
    QuietAddsNothing(s.events + [started], more, e);
  }

  lemma RouteLogs(setup: Setup, s: State, e: Event)
    requires e != Thinking(Oscillating)
    ensures Seen(Route(setup, s), e) == Seen(s, e)
  {
    RouteAdds(setup, s);
    if Route(setup, s).events != s.events {
      OneMoreEvent(s.events, Thinking(Oscillating), e);
    }
  }

  lemma RouteAdds(setup: Setup, s: State)
    ensures Route(setup, s).events == s.events || Route(setup, s).events == s.events + [Thinking(Oscillating)]
  {
  }

  ghost function Lists(s: State): nat { Seen(s, ToolStart(ListProjectFiles)) }

  ghost function Queries(s: State): nat { Seen(s, ToolStart(QueryLibraryGraphRag)) }

  /** How often the model chose to list the files, and how often the built-in rule did. */
  ghost function ListsByModel(s: State): nat { Seen(s, Thinking(CallingTool(ListProjectFiles))) }

  ghost function ListsByRule(s: State): nat { Seen(s, Thinking(Listing)) }

  lemma LookingAroundIsLogged(setup: Setup, s: State, o: Oracle)
    requires s.node.ToolExecution? ==> s.toolToCall.Some?
    requires !s.node.Ended?
    ensures Lists(Next(setup, s, o)) + Queries(Next(setup, s, o)) ==
            Lists(s) + Queries(s) + if LooksAround(s) then 1 else 0
  {
    var l, q := ToolStart(ListProjectFiles), ToolStart(QueryLibraryGraphRag);
    match s.node
    case ReasonAndPlan =>
      PlanLogs(setup, s, o, l);
      PlanLogs(setup, s, o, q);
    case ToolExecution =>
      ExecuteLogs(s, o, l);
      ExecuteLogs(s, o, q);
    case HealingRouter =>
      RouteLogs(setup, s, l);
      RouteLogs(setup, s, q);
    case GenerateFinalAnswer =>
      var t := Answer(s);
      OneMoreEvent(s.events, t.events[|s.events|], l);
      OneMoreEvent(s.events, t.events[|s.events|], q);
  }

  /** The explicit measure: executions so far plus rank is at most 16 plus 3 for every list or query executed. */
  lemma {:induction false} MeasureBound(setup: Setup, src: Source, os: seq<Oracle>)
    ensures var s := After(setup, src, os);
            Executions(setup, src, os) + Rank(s) <= 16 + 3 * (Lists(s) + Queries(s))
    decreases |os|
  {
    if os != [] {
      var t := After(setup, src, os[..|os| - 1]);
      MeasureBound(setup, src, os[..|os| - 1]);
      if !t.node.Ended? {
        RankFalls(setup, t, os[|os| - 1]);
        LookingAroundIsLogged(setup, t, os[|os| - 1]);
      }
    }
  }

  /** The free planning phase is over: from here on only edits and compiles follow. */
  ghost predicate PastFreePlanning(s: State) {
    match s.node
    case ReasonAndPlan => s.compileResult != NotRun || s.lastTool == Some(QueryLibraryGraphRag)
    case ToolExecution => s.toolToCall.Some? &&
      (s.toolToCall.value.tool == EditLatexFiles || s.toolToCall.value.tool == CompileLatexE2b ||
       s.toolToCall.value.tool == QueryLibraryGraphRag)
    case HealingRouter =>
      s.lastTool == Some(EditLatexFiles) || s.lastTool == Some(CompileLatexE2b)
          || s.lastTool == Some(QueryLibraryGraphRag)
    case GenerateFinalAnswer => true
    case Ended => true
  }

  function About(s: State, tool: Tool): int {
    if s.node.ToolExecution? && s.toolToCall.Some? && s.toolToCall.value.tool == tool then 1 else 0
  }

  /** The ledger of tool choices. */
  ghost predicate Ledger(setup: Setup, s: State) {
    && Lists(s) + About(s, ListProjectFiles) == ListsByModel(s) + ListsByRule(s)
    && Queries(s) + About(s, QueryLibraryGraphRag) <= 1
    && (Queries(s) + About(s, QueryLibraryGraphRag) == 1 ==> PastFreePlanning(s))
    && ListsByRule(s) <= 1
    && (ListsByRule(s) == 1 ==> setup.wantsListing && !setup.wantsEvidence)
    && (s.hasEvidence ==> Queries(s) == 1)
    && (s.node.ReasonAndPlan? && s.lastTool == None ==> s.events == [])
    && (s.node.HealingRouter? ==> s.lastTool.Some?)
    && (!setup.modelPlans ==>
          && ListsByModel(s) == 0
          && (Queries(s) + About(s, QueryLibraryGraphRag) == 1 ==> setup.wantsEvidence))
  }

  /** The facts about control that the ledger rests on. */
  ghost predicate FreeOrSettled(s: State) {
    && (s.node.ReasonAndPlan? && s.compileResult == NotRun ==>
          s.lastTool == None || s.lastTool == Some(ListProjectFiles) || s.lastTool == Some(QueryLibraryGraphRag))
    && (s.node.ReasonAndPlan? ==> s.compileResult != Succeeded)
  }

  /** What the planner's choice tells about the state it was made in. */
  ghost predicate ChosenIn(setup: Setup, s: State, tool: Tool, thought: Event) {
    && (tool == ListProjectFiles <==>
          thought == Thinking(CallingTool(ListProjectFiles)) || thought == Thinking(Listing))
    && (thought == Thinking(Listing) ==>
          s.lastTool == None && setup.wantsListing && (!setup.wantsEvidence || s.hasEvidence))
    && (if PastFreePlanning(s) then tool == EditLatexFiles
        else tool == QueryLibraryGraphRag ==> s.compileResult == NotRun)
    && !thought.ToolStart?
    && (!setup.modelPlans ==>
          && thought != Thinking(CallingTool(ListProjectFiles))
          && (tool == QueryLibraryGraphRag ==> setup.wantsEvidence))
  }

  lemma PlanChooses(setup: Setup, s: State, o: Oracle)
    requires FreeOrSettled(s) && s.node.ReasonAndPlan?
    ensures var t := Plan(setup, s, o);
            && t.node.ToolExecution? && t.toolToCall.Some? && |t.events| == |s.events| + 1
            && t.hasEvidence == s.hasEvidence
            && ChosenIn(setup, s, t.toolToCall.value.tool, t.events[|s.events|])
  {
  }

  lemma PlanLedger(setup: Setup, s: State, o: Oracle)
    requires FreeOrSettled(s) && Ledger(setup, s) && s.node.ReasonAndPlan?
    ensures Ledger(setup, Plan(setup, s, o))
  {
    var t := Plan(setup, s, o);
    PlanChooses(setup, s, o);
    PlanLogs(setup, s, o, ToolStart(ListProjectFiles));
    PlanLogs(setup, s, o, ToolStart(QueryLibraryGraphRag));
    PlanLogs(setup, s, o, Thinking(CallingTool(ListProjectFiles)));
    PlanLogs(setup, s, o, Thinking(Listing));
    PlannedLedger(setup, s, t, t.events[|s.events|]);
  }

  lemma PlannedLedger(setup: Setup, s: State, t: State, thought: Event)
    requires Ledger(setup, s) && s.node.ReasonAndPlan? && t.node.ToolExecution? && t.toolToCall.Some?
    requires t.hasEvidence == s.hasEvidence && ChosenIn(setup, s, t.toolToCall.value.tool, thought)
    requires Lists(t) == Lists(s) && Queries(t) == Queries(s)
    requires ListsByModel(t) == ListsByModel(s) + if thought == Thinking(CallingTool(ListProjectFiles)) then 1 else 0
    requires ListsByRule(t) == ListsByRule(s) + if thought == Thinking(Listing) then 1 else 0
    ensures Ledger(setup, t)
  {
  }

  lemma ExecuteLedger(setup: Setup, s: State, o: Oracle)
    requires s.toolToCall.Some? && Ledger(setup, s) && s.node.ToolExecution?
    ensures Ledger(setup, Execute(s, o))
  {
    ExecuteLogs(s, o, ToolStart(ListProjectFiles));
    ExecuteLogs(s, o, ToolStart(QueryLibraryGraphRag));
    ExecuteLogs(s, o, Thinking(CallingTool(ListProjectFiles)));
    ExecuteLogs(s, o, Thinking(Listing));
    ExecutedLedger(setup, s, Execute(s, o));
  }

  lemma ExecutedLedger(setup: Setup, s: State, t: State)
    requires s.toolToCall.Some? && Ledger(setup, s) && s.node.ToolExecution? && t.node.HealingRouter?
    requires var tool := s.toolToCall.value.tool;
             && t.lastTool == Some(if Compiles(tool) then CompileLatexE2b else tool)
             && t.hasEvidence == (s.hasEvidence || tool == QueryLibraryGraphRag)
             && Lists(t) == Lists(s) + About(s, ListProjectFiles)
             && Queries(t) == Queries(s) + About(s, QueryLibraryGraphRag)
             && ListsByModel(t) == ListsByModel(s) && ListsByRule(t) == ListsByRule(s)
    ensures Ledger(setup, t)
  {
  }

  lemma RouteLedger(setup: Setup, s: State)
    requires Ledger(setup, s) && s.node.HealingRouter?
    requires s.lastTool == Some(CompileLatexE2b) ==> s.compileResult != NotRun
    ensures Ledger(setup, Route(setup, s))
  {
    RouteLogs(setup, s, ToolStart(ListProjectFiles));
    RouteLogs(setup, s, ToolStart(QueryLibraryGraphRag));
    RouteLogs(setup, s, Thinking(CallingTool(ListProjectFiles)));
    RouteLogs(setup, s, Thinking(Listing));
  }

  lemma AnswerLedger(setup: Setup, s: State)
    requires Ledger(setup, s) && s.node.GenerateFinalAnswer?
    ensures Ledger(setup, Answer(s))
  {
    var x := Answer(s).events[|s.events|];
    OneMoreEvent(s.events, x, ToolStart(ListProjectFiles));
    OneMoreEvent(s.events, x, ToolStart(QueryLibraryGraphRag));
    OneMoreEvent(s.events, x, Thinking(CallingTool(ListProjectFiles)));
    OneMoreEvent(s.events, x, Thinking(Listing));
  }

  lemma {:induction false} RunLedger(setup: Setup, src: Source, os: seq<Oracle>)
    ensures Ledger(setup, After(setup, src, os))
    decreases |os|
  {
    if os != [] {
      var t, o := After(setup, src, os[..|os| - 1]), os[|os| - 1];
      RunLedger(setup, src, os[..|os| - 1]);
      match t.node
      case ReasonAndPlan => PlanLedger(setup, t, o);
      case ToolExecution => ExecuteLedger(setup, t, o);
      case HealingRouter => RouteLedger(setup, t);
      case GenerateFinalAnswer => AnswerLedger(setup, t);
      case Ended =>
    }
  }

  lemma {:induction false} AllExecutedUntilEnd(setup: Setup, src: Source, os: seq<Oracle>)
    ensures !After(setup, src, os).node.Ended? ==> Executions(setup, src, os) == |os|
    decreases |os|
  {
    if os != [] {
      AllExecutedUntilEnd(setup, src, os[..|os| - 1]);
    }
  }

  /**
   Every run ends. Without a planning model it executes at most 19 nodes. With one, a run in which
   the model chose to list the files k times executes at most 3k + 22 nodes, and at most 3k + 19
   unless the built-in rule listed the files and the library was queried as well; NineteenIff says
   for which setups that can happen.
  */
  lemma RunEnds(setup: Setup, src: Source, os: seq<Oracle>)
    ensures var s := After(setup, src, os);
            var n := Executions(setup, src, os);
            && (!setup.modelPlans ==> n <= 19)
            && n <= 3 * ListsByModel(s) + 22
            && (ListsByRule(s) == 0 || Queries(s) == 0 ==> n <= 3 * ListsByModel(s) + 19)
            && (!s.node.Ended? ==> n == |os|)
  {
    var s := After(setup, src, os);
    MeasureBound(setup, src, os);
    RunLedger(setup, src, os);
    AllExecutedUntilEnd(setup, src, os);
    assert Rank(s) >= 0 by {
      if !s.node.Ended? {
        RankFalls(setup, s, Oracle("", None, false));
      }
    }
  }

  // ---- One edit ---------------------------------------------------------------------------------------

  /** The model edits main.tex to a text with a digest of its own, and it compiles: six nodes. */
  lemma EditNodes(setup: Setup, src: Source, o: Oracle)
    requires setup.modelPlans && o.compiles && o.plan.Some? && o.plan == Some(EditMain(Content(o.plan.value.input)))
    requires Key(setup, Source(Content(o.plan.value.input), src.bib)) != Key(setup, src)
    ensures var planned := Next(setup, Initial(setup, src), o);
            && planned.node.ToolExecution? && planned.toolToCall.Some?
            && var routed := Next(setup, Next(setup, planned, o), o);
            && routed.node.ToolExecution? && routed.toolToCall == Some(ToolCall(CompileLatexE2b, NoInput()))
            && routed.source == Source(Content(o.plan.value.input), src.bib)
  {
    var edited := Execute(Plan(setup, Initial(setup, src), o), o);
    assert edited.source == Source(Content(o.plan.value.input), src.bib) && edited.lastTool == Some(EditLatexFiles);
  }

  lemma SuccessNodes(setup: Setup, s: State, o: Oracle)
    requires s.node.ToolExecution? && s.toolToCall == Some(ToolCall(CompileLatexE2b, NoInput())) && o.compiles
    ensures var compiled := Next(setup, s, o);
            && compiled.node.HealingRouter?
            && var done := Next(setup, compiled, o);
            && done.node.GenerateFinalAnswer? && Next(setup, done, o).node.Ended?
                && Next(setup, done, o).source == s.source
  {
  }

  lemma EditRun(setup: Setup, src: Source, text: string) returns (os: seq<Oracle>)
    requires setup.modelPlans && Key(setup, Source(text, src.bib)) != Key(setup, src)
    ensures After(setup, src, os).node.Ended? && After(setup, src, os).source == Source(text, src.bib)
  {
    var o := Oracle("", Some(EditMain(text)), true);
    EditNodes(setup, src, o);
    os := [];
    OneMoreNode(setup, src, os, o);
    OneMoreNode(setup, src, os + [o], o);
    OneMoreNode(setup, src, os + [o] + [o], o);
    os := os + [o] + [o] + [o];
    SuccessNodes(setup, After(setup, src, os), o);
    OneMoreNode(setup, src, os, o);
    OneMoreNode(setup, src, os + [o], o);
    OneMoreNode(setup, src, os + [o] + [o], o);
    os := os + [o] + [o] + [o];
  }

  // ---- The bound with a model is attained -----------------------------------------------------------

  lemma OneMoreNode(setup: Setup, src: Source, os: seq<Oracle>, o: Oracle)
    ensures After(setup, src, os + [o]) == Next(setup, After(setup, src, os), o)
    ensures Executions(setup, src, os + [o]) ==
            Executions(setup, src, os) + if After(setup, src, os).node.Ended? then 0 else 1
  {
    assert (os + [o])[..|os|] == os;
  }

  /** The model is not asked, or names another tool than the file list. */
  predicate NamesNoList(o: Oracle) { o.plan.Some? ==> o.plan.value.tool != ListProjectFiles }

  lemma NoListByModel(setup: Setup, s: State, o: Oracle)
    requires s.node.ToolExecution? ==> s.toolToCall.Some?
    requires NamesNoList(o)
    ensures ListsByModel(Next(setup, s, o)) == ListsByModel(s)
  {
    var e := Thinking(CallingTool(ListProjectFiles));
    match s.node
    case ReasonAndPlan => PlanLogs(setup, s, o, e);
    case ToolExecution => ExecuteLogs(s, o, e);
    case HealingRouter => RouteLogs(setup, s, e);
    case GenerateFinalAnswer => OneMoreEvent(s.events, Answer(s).events[|s.events|], e);
    case Ended =>
  }

  /** Extends a run by one node that lists nothing at the model's wish. */
  lemma Extend(setup: Setup, src: Source, os: seq<Oracle>, o: Oracle) returns (more: seq<Oracle>)
    requires !After(setup, src, os).node.Ended? && NamesNoList(o)
    ensures more == os + [o]
    ensures After(setup, src, more) == Next(setup, After(setup, src, os), o)
    ensures Executions(setup, src, more) == Executions(setup, src, os) + 1
    ensures ListsByModel(After(setup, src, more)) == ListsByModel(After(setup, src, os))
  {
    more := os + [o];
    OneMoreNode(setup, src, os, o);
    NoListByModel(setup, After(setup, src, os), o);
  }

  /** The planner rewrites, the tool stores, the router sends a new digest on to the compiler. */
  lemma RewriteNodes(setup: Setup, s: State, o: Oracle)
    requires s.node.ReasonAndPlan? && (s.compileResult == Rejected || s.lastTool == Some(QueryLibraryGraphRag))
    requires Key(setup, Source(o.patch, s.source.bib)) !in s.seenHashes
    ensures var planned := Next(setup, s, o);
            && planned.node == ToolExecution && planned.toolToCall.Some?
            && var edited := Next(setup, planned, o);
            && edited.node == HealingRouter
            && Rewritten(setup, s, Next(setup, edited, o), o.patch)
  {
    var edited := Execute(Plan(setup, s, o), o);
    assert edited.source == Source(o.patch, s.source.bib) && edited.lastTool == Some(EditLatexFiles);
  }

  ghost predicate Rewritten(setup: Setup, s: State, t: State, patch: string) {
    && t.node == ToolExecution && t.toolToCall == Some(ToolCall(CompileLatexE2b, NoInput()))
    && t.compileCount == s.compileCount
    && t.source == Source(patch, s.source.bib)
    && t.seenHashes == s.seenHashes + [Key(setup, t.source)]
  }

  /** A rewriting with a new digest is on its way to the compiler three nodes later. */
  lemma RewritePhase(setup: Setup, src: Source, os: seq<Oracle>, patch: string) returns (more: seq<Oracle>)
    requires var s := After(setup, src, os);
             && s.node.ReasonAndPlan?
             && (s.compileResult == Rejected || s.lastTool == Some(QueryLibraryGraphRag))
             && Key(setup, Source(patch, s.source.bib)) !in s.seenHashes
    ensures var s, t := After(setup, src, os), After(setup, src, more);
            && Executions(setup, src, more) == Executions(setup, src, os) + 3
            && Rewritten(setup, s, t, patch)
            && ListsByModel(t) == ListsByModel(s)
  {
    var o := Oracle(patch, None, false);
    RewriteNodes(setup, After(setup, src, os), o);
    more := Extend(setup, src, os, o);
    more := Extend(setup, src, more, o);
    more := Extend(setup, src, more, o);
  }

  ghost predicate FailedToCompile(s: State, t: State) {
    && t.compileCount == s.compileCount + 1 && t.compileResult == Rejected
    && t.node == (if t.compileCount >= MAX_ATTEMPTS then GenerateFinalAnswer else ReasonAndPlan)
    && t.source == s.source && t.seenHashes == s.seenHashes
  }

  lemma CompileNodes(setup: Setup, s: State, o: Oracle)
    requires s.node.ToolExecution? && s.toolToCall == Some(ToolCall(CompileLatexE2b, NoInput()))
    requires s.maxCompileAttempts == MAX_ATTEMPTS && !o.compiles
    ensures var t := Next(setup, s, o); t.node == HealingRouter && FailedToCompile(s, Next(setup, t, o))
  {
  }

  lemma CompilePhase(setup: Setup, src: Source, os: seq<Oracle>) returns (more: seq<Oracle>)
    requires var s := After(setup, src, os);
             s.node == ToolExecution && s.toolToCall == Some(ToolCall(CompileLatexE2b, NoInput()))
    ensures var s, t := After(setup, src, os), After(setup, src, more);
            && Executions(setup, src, more) == Executions(setup, src, os) + 2
            && FailedToCompile(s, t)
            && ListsByModel(t) == ListsByModel(s)
  {
    var o := Oracle("", None, false);
    CompileNodes(setup, After(setup, src, os), o);
    more := Extend(setup, src, os, o);
    more := Extend(setup, src, more, o);
  }

  /** One round of rewriting and compiling without success: five nodes. */
  lemma FailedRound(setup: Setup, src: Source, os: seq<Oracle>, patch: string) returns (more: seq<Oracle>)
    requires var s := After(setup, src, os);
             && s.node.ReasonAndPlan?
             && (s.compileResult == Rejected || s.lastTool == Some(QueryLibraryGraphRag))
             && Key(setup, Source(patch, s.source.bib)) !in s.seenHashes
    ensures var s, t := After(setup, src, os), After(setup, src, more);
            && Executions(setup, src, more) == Executions(setup, src, os) + 5
            && t.compileCount == s.compileCount + 1 && t.compileResult == Rejected
            && t.node == (if t.compileCount >= 3 then GenerateFinalAnswer else ReasonAndPlan)
            && t.source == Source(patch, s.source.bib)
            && t.seenHashes == s.seenHashes + [Key(setup, t.source)]
            && ListsByModel(t) == ListsByModel(s)
  {
    more := RewritePhase(setup, src, os, patch);
    more := CompilePhase(setup, src, more);
  }

  ghost predicate LookedAround(s: State, t: State, tool: Tool) {
    && t.node.ReasonAndPlan? && t.lastTool == Some(tool)
    && t.compileCount == s.compileCount && t.compileResult == s.compileResult
    && t.seenHashes == s.seenHashes && t.source == s.source
  }

  /** Listing or querying leads back to the planner. */
  lemma LookNodes(setup: Setup, s: State, o: Oracle, tool: Tool)
    requires s.node.ReasonAndPlan? && (tool == ListProjectFiles || tool == QueryLibraryGraphRag)
    requires Plan(setup, s, o).node.ToolExecution? && Plan(setup, s, o).toolToCall == Some(ToolCall(tool, NoInput()))
    ensures var planned := Next(setup, s, o);
            && planned.node.ToolExecution? && planned.toolToCall.Some?
            && var found := Next(setup, planned, o);
            && found.node.HealingRouter?
            && LookedAround(s, Next(setup, found, o), tool)
  {
  }

  lemma LookPhase(setup: Setup, src: Source, os: seq<Oracle>, o: Oracle, tool: Tool) returns (more: seq<Oracle>)
    requires var s := After(setup, src, os);
             && s.node.ReasonAndPlan? && (tool == ListProjectFiles || tool == QueryLibraryGraphRag)
             && Plan(setup, s, o).node.ToolExecution? && Plan(setup, s, o).toolToCall == Some(ToolCall(tool, NoInput()))
    requires NamesNoList(o)
    ensures var s, t := After(setup, src, os), After(setup, src, more);
            && Executions(setup, src, more) == Executions(setup, src, os) + 3
            && LookedAround(s, t, tool) && ListsByModel(t) == ListsByModel(s)
  {
    LookNodes(setup, After(setup, src, os), o, tool);
    more := Extend(setup, src, os, o);
    more := Extend(setup, src, more, o);
    more := Extend(setup, src, more, o);
  }

  /** Two rewritings of main.tex whose digests differ from each other and from the start's. */
  ghost predicate TwoFreshPatches(setup: Setup, src: Source, p: string, q: string) {
    var start, first, second := Key(setup, src), Key(setup, Source(p, src.bib)), Key(setup, Source(q, src.bib));
    first != start && second != start && first != second
  }

  /** The model chooses to list the files once more; nothing else changes. */
  lemma ListPhase(setup: Setup, src: Source, os: seq<Oracle>) returns (more: seq<Oracle>)
    requires setup.modelPlans
    requires var s := After(setup, src, os);
             s.node.ReasonAndPlan? && s.compileResult != Rejected && s.lastTool != Some(QueryLibraryGraphRag)
    ensures var s, t := After(setup, src, os), After(setup, src, more);
            && Executions(setup, src, more) == Executions(setup, src, os) + 3
            && LookedAround(s, t, ListProjectFiles) && ListsByModel(t) == ListsByModel(s) + 1
  {
    var o := Oracle("", Some(ToolCall(ListProjectFiles, NoInput())), false);
    var silent := Oracle("", None, false);
    var s := After(setup, src, os);
    LookNodes(setup, s, o, ListProjectFiles);
    ListIsCounted(setup, s, o);
    OneMoreNode(setup, src, os, o);
    more := os + [o];
    LookRest(setup, s, o, silent, ListProjectFiles);
    more := Extend(setup, src, more, silent);
    more := Extend(setup, src, more, silent);
  }

  /** What the oracle says while the chosen look is carried out and routed does not matter. */
  lemma LookRest(setup: Setup, s: State, o: Oracle, p: Oracle, tool: Tool)
    requires s.node.ReasonAndPlan? && (tool == ListProjectFiles || tool == QueryLibraryGraphRag)
    requires Plan(setup, s, o).node.ToolExecution? && Plan(setup, s, o).toolToCall == Some(ToolCall(tool, NoInput()))
    ensures var found := Next(setup, Plan(setup, s, o), p);
            found.node.HealingRouter? && LookedAround(s, Next(setup, found, p), tool)
  {
    LookNodes(setup, s, o, tool);
    assert Execute(Plan(setup, s, o), p) == Execute(Plan(setup, s, o), o);
  }

  lemma ListIsCounted(setup: Setup, s: State, o: Oracle)
    requires setup.modelPlans && o.plan == Some(ToolCall(ListProjectFiles, NoInput()))
    requires s.node.ReasonAndPlan? && s.compileResult != Rejected && s.lastTool != Some(QueryLibraryGraphRag)
    ensures ListsByModel(Plan(setup, s, o)) == ListsByModel(s) + 1
  {
    OneMoreEvent(s.events, Thinking(CallingTool(ListProjectFiles)), Thinking(CallingTool(ListProjectFiles)));
  }

  /** The built-in rule lists the files once, then the model lists them k times. */
  lemma {:induction false} ListMany(setup: Setup, src: Source, k: nat) returns (os: seq<Oracle>)
    requires setup.modelPlans && setup.wantsListing && !setup.wantsEvidence
    ensures var s := After(setup, src, os);
            && Executions(setup, src, os) == 3 * k + 3 && ListsByModel(s) == k
            && LookedAround(Initial(setup, src), s, ListProjectFiles)
    decreases k
  {
    if k == 0 {
      os := LookPhase(setup, src, [], Oracle("", None, false), ListProjectFiles);
    } else {
      os := ListMany(setup, src, k - 1);
      os := ListPhase(setup, src, os);
    }
  }

  lemma ListManyThenQuery(setup: Setup, src: Source, k: nat) returns (os: seq<Oracle>)
    requires setup.modelPlans && setup.wantsListing && !setup.wantsEvidence
    ensures var s := After(setup, src, os);
            && Executions(setup, src, os) == 3 * k + 6 && ListsByModel(s) == k
            && LookedAround(Initial(setup, src), s, QueryLibraryGraphRag)
  {
    os := ListMany(setup, src, k);
    var query := Oracle("", Some(ToolCall(QueryLibraryGraphRag, NoInput())), false);
    os := LookPhase(setup, src, os, query, QueryLibraryGraphRag);
  }

  /**
   Whenever the message asks for the files but for no evidence, a model can plan, and three
   rewritings have digests of their own, the bound is attained for every k: the built-in rule lists
   the files, the model lists them k times and queries the library, and the three rewritten sources
   fail to compile.
  */
  lemma BoundAttained(setup: Setup, src: Source, p: string, q: string, r: string, k: nat) returns (os: seq<Oracle>)
    requires setup.modelPlans && setup.wantsListing && !setup.wantsEvidence
    requires TwoFreshPatches(setup, src, p, q) && TwoFreshPatches(setup, src, p, r) && TwoFreshPatches(setup, src, q, r)
    ensures Executions(setup, src, os) == 3 * k + 22
    ensures After(setup, src, os).node.Ended? && ListsByModel(After(setup, src, os)) == k
  {
    os := ListManyThenQuery(setup, src, k);
    os := FailedRound(setup, src, os, p);
    os := FailedRound(setup, src, os, q);
    os := FailedRound(setup, src, os, r);
    os := Extend(setup, src, os, Oracle("", None, false));
  }

  /** For example, when the digest is the text itself. */
  lemma ARunOfTwentyTwo() returns (setup: Setup, src: Source, os: seq<Oracle>)
    ensures Executions(setup, src, os) == 22 && ListsByModel(After(setup, src, os)) == 0
  {
    setup := Setup(false, true, false, false, true, (tex, bib) => tex, t => t);
    src := Source("", "");
    os := BoundAttained(setup, src, "a", "b", "c", 0);
  }

  // ---- When nineteen executions, and three for every list the model chose, suffice ------------------

  /** Rewriting to a source seen before ends the run. */
  lemma RepeatNodes(setup: Setup, s: State, o: Oracle)
    requires s.node.ReasonAndPlan? && s.compileResult == Rejected
    requires Key(setup, Source(o.patch, s.source.bib)) in s.seenHashes
    ensures var planned := Next(setup, s, o);
            && planned.node == ToolExecution && planned.toolToCall.Some?
            && var edited := Next(setup, planned, o);
            && edited.node == HealingRouter
            && Next(setup, edited, o).node == GenerateFinalAnswer
  {
    var edited := Execute(Plan(setup, s, o), o);
    assert edited.source == Source(o.patch, s.source.bib) && edited.lastTool == Some(EditLatexFiles);
  }

  /** With two fresh rewritings already: both fail to compile, and the second is proposed again. */
  lemma TwentyExecutions(setup: Setup, src: Source, p: string, q: string) returns (os: seq<Oracle>)
    requires setup.modelPlans && setup.wantsListing && !setup.wantsEvidence && TwoFreshPatches(setup, src, p, q)
    ensures Executions(setup, src, os) == 20 && ListsByModel(After(setup, src, os)) == 0
  {
    os := ListManyThenQuery(setup, src, 0);
    os := FailedRound(setup, src, os, p);
    os := FailedRound(setup, src, os, q);
    var o := Oracle(q, None, false);
    RepeatNodes(setup, After(setup, src, os), o);
    os := Extend(setup, src, os, o);
    os := Extend(setup, src, os, o);
    os := Extend(setup, src, os, o);
    os := Extend(setup, src, os, o);
  }

  ghost predicate Untouched(setup: Setup, src: Source, s: State) {
    s.source == src && s.seenHashes == [Key(setup, src)] && s.compileCount == 0
  }

  /** The digest of some version of main.tex beside the bibliography of the start. */
  ghost predicate OfMain(setup: Setup, src: Source, h: string) {
    exists p :: h == Key(setup, Source(p, src.bib))
  }

  /** Once the library is queried, only main.tex is rewritten, and every rewriting but the last was compiled. */
  ghost predicate OnlyMainRewritten(setup: Setup, src: Source, s: State) {
    && s.source.bib == src.bib
    && s.seenHashes != [] && s.seenHashes[0] == Key(setup, src)
    && (forall i :: 0 <= i < |s.seenHashes| ==> OfMain(setup, src, s.seenHashes[i]))
    && |s.seenHashes| == s.compileCount + 1 + AboutToCompile(s)
    && (s.node.ToolExecution? && s.toolToCall.Some? && Edits(s.toolToCall.value.tool) ==>
          s.toolToCall == Some(EditMain(Content(s.toolToCall.value.input))))
  }

  function AboutToCompile(s: State): int {
    if s.node.ToolExecution? && s.toolToCall.Some? && Compiles(s.toolToCall.value.tool) then 1 else 0
  }

  ghost predicate StillPlanning(s: State) {
    match s.node
    case ReasonAndPlan => s.compileResult == NotRun
    case ToolExecution => LooksAround(s)
    case HealingRouter => s.lastTool == Some(ListProjectFiles) || s.lastTool == Some(QueryLibraryGraphRag)
    case GenerateFinalAnswer => false
    case Ended => false
  }

  ghost predicate Path(setup: Setup, src: Source, s: State, queried: bool) {
    && (StillPlanning(s) ==> Untouched(setup, src, s))
    && (queried ==> OnlyMainRewritten(setup, src, s) && PastFreePlanning(s))
  }

  lemma UntouchedIsMain(setup: Setup, src: Source, s: State)
    requires Untouched(setup, src, s)
    ensures forall i :: 0 <= i < |s.seenHashes| ==> OfMain(setup, src, s.seenHashes[i])
  {
    assert src == Source(src.mainTex, src.bib);
  }

  lemma PlanPath(setup: Setup, src: Source, s: State, o: Oracle, queried: bool)
    requires Path(setup, src, s, queried) && Control(setup, s) && s.node.ReasonAndPlan?
    ensures Path(setup, src, Plan(setup, s, o), queried || About(Plan(setup, s, o), QueryLibraryGraphRag) == 1)
  {
    if s.compileResult == NotRun {
      UntouchedIsMain(setup, src, s);
    }
  }

  lemma ExecutePath(setup: Setup, src: Source, s: State, o: Oracle, queried: bool)
    requires Path(setup, src, s, queried) && s.node.ToolExecution? && s.toolToCall.Some?
    ensures Path(setup, src, Execute(s, o), queried)
  {
  }

  lemma RoutePath(setup: Setup, src: Source, s: State, queried: bool)
    requires Path(setup, src, s, queried) && Control(setup, s) && s.node.HealingRouter?
    ensures Path(setup, src, Route(setup, s), queried)
  {
    if queried && s.lastTool == Some(EditLatexFiles) {
      assert Key(setup, s.source) == Key(setup, Source(s.source.mainTex, src.bib));
      assert OfMain(setup, src, Key(setup, s.source));
    }
  }

  ghost predicate Queried(s: State) { Queries(s) + About(s, QueryLibraryGraphRag) > 0 }

  lemma PlanQueries(setup: Setup, s: State, o: Oracle)
    requires s.node.ReasonAndPlan?
    ensures Queries(Plan(setup, s, o)) == Queries(s)
  {
    PlanAdds(setup, s, o);
    if Plan(setup, s, o).node.ToolExecution? {
      PlanAddsNoStart(setup, s, o);
      LoggedLast(s.events, Plan(setup, s, o).events, ToolStart(QueryLibraryGraphRag));
    }
  }

  lemma NextQueried(setup: Setup, s: State, o: Oracle)
    requires s.node.ToolExecution? ==> s.toolToCall.Some?
    requires !s.node.ReasonAndPlan?
    ensures Queried(Next(setup, s, o)) <==> Queried(s)
  {
    var e := ToolStart(QueryLibraryGraphRag);
    match s.node
    case ToolExecution => ExecuteLogs(s, o, e);
    case HealingRouter => RouteLogs(setup, s, e);
    case GenerateFinalAnswer => OneMoreEvent(s.events, Answer(s).events[|s.events|], e);
    case Ended =>
  }

  lemma NextPath(setup: Setup, src: Source, s: State, o: Oracle)
    requires Inv(setup, s) && Path(setup, src, s, Queried(s))
    ensures Path(setup, src, Next(setup, s, o), Queried(Next(setup, s, o)))
  {
    match s.node
    case ReasonAndPlan =>
      PlanPath(setup, src, s, o, Queried(s));
      PlanQueries(setup, s, o);
    case ToolExecution =>
      ExecutePath(setup, src, s, o, Queried(s));
      NextQueried(setup, s, o);
    case HealingRouter =>
      RoutePath(setup, src, s, Queried(s));
      NextQueried(setup, s, o);
    case GenerateFinalAnswer => NextQueried(setup, s, o);
    case Ended =>
  }

  lemma {:induction false} RunPath(setup: Setup, src: Source, os: seq<Oracle>)
    ensures Path(setup, src, After(setup, src, os), Queried(After(setup, src, os)))
    decreases |os|
  {
    if os != [] {
      RunPath(setup, src, os[..|os| - 1]);
      NextPath(setup, src, After(setup, src, os[..|os| - 1]), os[|os| - 1]);
    }
  }

  lemma PlanAddsNoStart(setup: Setup, s: State, o: Oracle)
    requires s.node.ReasonAndPlan? && Plan(setup, s, o).node.ToolExecution?
    ensures |Plan(setup, s, o).events| > |s.events| && Plan(setup, s, o).events[|s.events|].Thinking?
  {
  }

  /** Without two fresh rewritings a run that queried the library compiles at most once. */
  lemma FewCompiles(setup: Setup, src: Source, os: seq<Oracle>)
    requires forall p, q :: !TwoFreshPatches(setup, src, p, q)
    requires Queried(After(setup, src, os))
    ensures After(setup, src, os).compileCount <= 1
  {
    var s := After(setup, src, os);
    RunPath(setup, src, os);
    if |s.seenHashes| > 2 {
      assert OfMain(setup, src, s.seenHashes[1]) && OfMain(setup, src, s.seenHashes[2]);
      var p :| s.seenHashes[1] == Key(setup, Source(p, src.bib));
      var q :| s.seenHashes[2] == Key(setup, Source(q, src.bib));
      assert TwoFreshPatches(setup, src, p, q);
    }
  }

  lemma CountRises(setup: Setup, s: State, o: Oracle)
    requires s.node.ToolExecution? ==> s.toolToCall.Some?
    ensures s.compileCount <= Next(setup, s, o).compileCount
  {
  }

  /** Stopping after at most one compile leaves at least seven executions unused. */
  lemma StoppingEarly(setup: Setup, s: State, o: Oracle)
    requires Inv(setup, s) && !s.node.Ended? && s.compileCount <= 1
    ensures Next(setup, s, o).node.GenerateFinalAnswer? ==> Rank(s) >= 9 && !LooksAround(s)
    ensures Next(setup, s, o).node.Ended? ==> s.node.GenerateFinalAnswer?
  {
    if s.node.ReasonAndPlan? {
      PlanKeeps(setup, s, o);
    }
  }

  function Unused(s: State): int { if s.node.GenerateFinalAnswer? || s.node.Ended? then 7 else 0 }

  lemma {:induction false} ShortMeasure(setup: Setup, src: Source, os: seq<Oracle>)
    ensures var s := After(setup, src, os);
            s.compileCount <= 1 ==>
              Executions(setup, src, os) + Rank(s) + Unused(s) <= 16 + 3 * (Lists(s) + Queries(s))
    decreases |os|
  {
    if os != [] {
      var t, o := After(setup, src, os[..|os| - 1]), os[|os| - 1];
      ShortMeasure(setup, src, os[..|os| - 1]);
      CountRises(setup, t, o);
      if !t.node.Ended? && t.compileCount <= 1 {
        RankFalls(setup, t, o);
        StoppingEarly(setup, t, o);
        LookingAroundIsLogged(setup, t, o);
      }
    }
  }

  lemma UnusedIsEnough(setup: Setup, s: State)
    requires Inv(setup, s) && s.compileCount <= 1
    ensures Rank(s) + Unused(s) >= 7
  {
  }

  /**
   The shorter bound holds for every run of a setup in which the two ways to look around do not
   meet, or digests are too few.
   */
  lemma NineteenSuffice(setup: Setup, src: Source, os: seq<Oracle>)
    requires !setup.modelPlans || !setup.wantsListing || setup.wantsEvidence ||
             forall p, q :: !TwoFreshPatches(setup, src, p, q)
    ensures Executions(setup, src, os) <= 3 * ListsByModel(After(setup, src, os)) + 19
  {
    var s := After(setup, src, os);
    RunEnds(setup, src, os);
    RunLedger(setup, src, os);
    if ListsByRule(s) == 1 && Queries(s) == 1 && setup.modelPlans {
      FewCompiles(setup, src, os);
      ShortMeasure(setup, src, os);
      UnusedIsEnough(setup, s);
    }
  }

  /**
   Exactly when 19 node executions, and three for every file list the model chose, bound every run:
   unless the message asks for the files but for no evidence, a model can plan, and main.tex has
   two rewritings with digests of their own.
  */
  lemma NineteenIff(setup: Setup, src: Source)
    ensures (forall os :: Executions(setup, src, os) <= 3 * ListsByModel(After(setup, src, os)) + 19) <==>
            !(setup.modelPlans && setup.wantsListing && !setup.wantsEvidence &&
              exists p, q :: TwoFreshPatches(setup, src, p, q))
  {
    if setup.modelPlans && setup.wantsListing && !setup.wantsEvidence
        && exists p, q :: TwoFreshPatches(setup, src, p, q) {
      var p, q :| TwoFreshPatches(setup, src, p, q);
      var os := TwentyExecutions(setup, src, p, q);
      assert Executions(setup, src, os) > 3 * ListsByModel(After(setup, src, os)) + 19;
    } else {
      forall os
        ensures Executions(setup, src, os) <= 3 * ListsByModel(After(setup, src, os)) + 19
      {
        NineteenSuffice(setup, src, os);
      }
    }
  }
}
