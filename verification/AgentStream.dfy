/**
 The event stream of the co-author agent, and the draft service that replays it: at every point the
 replayed texts are the agent's own.
*/
module AgentStream {
  import opened Wrappers
  import opened LatexAgent

  function Rewritten(src: Source, e: Event): Source {
    if e.ContentUpdate? then Edited(src, e.targetFile, e.content) else src
  }

  function AttemptIn(e: Event): seq<int> {
    if e.CompileAttempt? then [e.attempt] else []
  }

  /** The two texts after folding the content updates alone. */
  ghost function Replayed(src: Source, events: seq<Event>): Source {
    if events == [] then src else Rewritten(Replayed(src, events[..|events| - 1]), events[|events| - 1])
  }

  /** The numbers of the compile attempts, in order. */
  ghost function Attempts(events: seq<Event>): seq<int> {
    if events == [] then [] else Attempts(events[..|events| - 1]) + AttemptIn(events[|events| - 1])
  }

  lemma OneMoreStreamed(src: Source, events: seq<Event>, e: Event)
    ensures Replayed(src, events + [e]) == Rewritten(Replayed(src, events), e)
    ensures Attempts(events + [e]) == Attempts(events) + AttemptIn(e)
  {
    assert (events + [e])[..|events|] == events;
  }

  ghost predicate CountsUp(ns: seq<int>, n: int) {
    |ns| == n && forall i :: 0 <= i < |ns| ==> ns[i] == i + 1
  }

  /** Nothing follows the closing event, and it is there exactly when the run has ended. */
  ghost predicate ClosedOnce(s: State) {
    && (forall i :: 0 <= i < |s.events| && s.events[i].Done? ==> s.node.Ended? && i == |s.events| - 1)
    && (s.node.Ended? ==>
          && s.events != []
          && s.events[|s.events| - 1] ==
             Done(s.compileResult == Succeeded, s.compileCount, s.oscillation, s.source, s.status))
  }

  ghost predicate Faithful(src: Source, s: State) {
    && Replayed(src, s.events) == s.source
    && CountsUp(Attempts(s.events), s.compileCount)
    && ClosedOnce(s)
  }

  /** One event more keeps the stream faithful if the texts and the count change as the event says. */
  lemma Streamed(src: Source, s: State, t: State, e: Event)
    requires Faithful(src, s) && !s.node.Ended? && !t.node.Ended? && !e.Done?
    requires t.events == s.events + [e] && t.source == Rewritten(s.source, e)
    requires if e.CompileAttempt? then t.compileCount == s.compileCount + 1 == e.attempt
        else t.compileCount == s.compileCount
    ensures Faithful(src, t)
  {
    OneMoreStreamed(src, s.events, e);
  }

  lemma Silent(src: Source, s: State, t: State)
    requires Faithful(src, s) && !s.node.Ended? && !t.node.Ended?
    requires t.events == s.events && t.source == s.source && t.compileCount == s.compileCount
    ensures Faithful(src, t)
  {
  }

  lemma PlanStreams(setup: Setup, src: Source, s: State, o: Oracle)
    requires Faithful(src, s) && s.node.ReasonAndPlan?
    ensures Faithful(src, Plan(setup, s, o))
  {
    var t := Plan(setup, s, o);
    if t.node.ToolExecution? {
      Streamed(src, s, t, t.events[|s.events|]);
    } else {
      Silent(src, s, t);
    }
  }

  lemma ExecuteStreams(src: Source, s: State, o: Oracle)
    requires Faithful(src, s) && s.node.ToolExecution? && s.toolToCall.Some?
    ensures Faithful(src, Execute(s, o))
  {
    var tool, input := s.toolToCall.value.tool, s.toolToCall.value.input;
    var t := Execute(s, o);
    var s1 := s.(events := s.events + [ToolStart(tool)]);
    Streamed(src, s, s1, ToolStart(tool));
    if Edits(tool) {
      var e := ContentUpdate(Target(input), Content(input));
      var s2 := s1.(events := s1.events + [e], source := t.source);
      Streamed(src, s1, s2, e);
      Streamed(src, s2, t, ToolEnd(tool));
    } else if Compiles(tool) {
      var e := CompileAttempt(s.compileCount + 1, o.compiles);
      var s2 := s1.(events := s1.events + [e], compileCount := s.compileCount + 1);
      Streamed(src, s1, s2, e);
      Streamed(src, s2, t, ToolEnd(CompileLatexE2b));
    } else if Reads(tool) {
      Streamed(src, s1, t, ToolEnd(tool));
    } else {
      Silent(src, s1, t);
    }
  }

  lemma RouteStreams(setup: Setup, src: Source, s: State)
    requires Faithful(src, s) && s.node.HealingRouter?
    ensures Faithful(src, Route(setup, s))
  {
    var t := Route(setup, s);
    if t.events == s.events {
      Silent(src, s, t);
    } else {
      Streamed(src, s, t, Thinking(Oscillating));
    }
  }

  lemma AnswerStreams(src: Source, s: State)
    requires Faithful(src, s) && s.node.GenerateFinalAnswer?
    ensures Faithful(src, Answer(s))
  {
    OneMoreStreamed(src, s.events, Answer(s).events[|s.events|]);
  }

  /**
   For every run: the content updates alone rebuild the agent's two texts at every point, compile
   attempts are numbered 1, 2, ... up to the count, and the closing event occurs once, last.
  */
  lemma {:induction false} StreamIsFaithful(setup: Setup, src: Source, os: seq<Oracle>)
    ensures Faithful(src, After(setup, src, os))
    decreases |os|
  {
    if os != [] {
      var t, o := After(setup, src, os[..|os| - 1]), os[|os| - 1];
      StreamIsFaithful(setup, src, os[..|os| - 1]);
      match t.node
      case ReasonAndPlan => PlanStreams(setup, src, t, o);
      case ToolExecution => ExecuteStreams(src, t, o);
      case HealingRouter => RouteStreams(setup, src, t);
      case GenerateFinalAnswer => AnswerStreams(src, t);
      case Ended =>
    }
  }

  /** A closing event that reports success carries the very source that was compiled last. */
  lemma SuccessCarriesCompiledSource(setup: Setup, src: Source, os: seq<Oracle>)
    requires After(setup, src, os).node.Ended?
    ensures var s := After(setup, src, os);
            && s.events != [] && s.events[|s.events| - 1].Done?
            && (s.events[|s.events| - 1].success ==>
                  && s.compiled != []
                  && s.events[|s.events| - 1].source == s.compiled[|s.compiled| - 1])
  {
    StreamIsFaithful(setup, src, os);
  }

  // ---- The draft service's fold -------------------------------------------------------------------

  /** What the service knows after hearing some events. */
  datatype Heard = Heard(source: Source, attempts: int, answered: bool)

  function Hear(h: Heard, e: Event): Heard {
    match e
    case ContentUpdate(file, content) => h.(source := Edited(h.source, file, content))
    case CompileAttempt(n, _) => h.(attempts := n)
    case Done(_, _, _, final, _) =>
      Heard(Source(if final.mainTex != "" then final.mainTex else h.source.mainTex,
                   if final.bib != "" then final.bib else h.source.bib),
            h.attempts, true)
    case _ => h
  }

  ghost function HeardAll(src: Source, events: seq<Event>): Heard {
    if events == [] then Heard(src, 0, false)
    else Hear(HeardAll(src, events[..|events| - 1]), events[|events| - 1])
  }

  lemma {:induction false} HeardIsReplayed(src: Source, events: seq<Event>)
    requires forall i :: 0 <= i < |events| ==> !events[i].Done?
    ensures HeardAll(src, events).source == Replayed(src, events) && !HeardAll(src, events).answered
    ensures HeardAll(src, events).attempts ==
            if Attempts(events) == [] then 0 else Attempts(events)[|Attempts(events)| - 1]
  {
    if events != [] {
      HeardIsReplayed(src, events[..|events| - 1]);
    }
  }

  /**
   At every point of a run the service's texts are the agent's texts and its counter is the agent's
   compile count; the texts in the closing event change nothing any more, empty or not.
  */
  lemma ServiceFollowsAgent(setup: Setup, src: Source, os: seq<Oracle>)
    ensures var s := After(setup, src, os);
            HeardAll(src, s.events) == Heard(s.source, s.compileCount, s.node.Ended?)
  {
    var s := After(setup, src, os);
    StreamIsFaithful(setup, src, os);
    if s.node.Ended? {
      ClosingChangesNothing(src, s);
    } else {
      HeardIsReplayed(src, s.events);
    }
  }

  lemma ClosingChangesNothing(src: Source, s: State)
    requires Faithful(src, s) && s.node.Ended?
    ensures HeardAll(src, s.events) == Heard(s.source, s.compileCount, true)
  {
    var front, last := s.events[..|s.events| - 1], s.events[|s.events| - 1];
    HeardIsReplayed(src, front);
    OneMoreStreamed(src, front, last);
    assert s.events == front + [last];
    assert Attempts(s.events) == Attempts(front);
  }

  // ---- The agent and the service as programs ------------------------------------------------------

  class Coauthor {
    const setup: Setup
    var state: State

    constructor (setup: Setup, src: Source)
      ensures this.setup == setup && state == Initial(setup, src)
    {
      this.setup := setup;
      state := Initial(setup, src);
    }

    /** Writes one of the two known files into the shared state; any other name is ignored. */
    method EditLatexFiles(target: File, content: string)
      modifies this
      ensures state == old(state).(source := Edited(old(state).source, target, content))
      ensures state.source.mainTex == (if target == MainTex then content else old(state).source.mainTex)
      ensures state.source.bib == (if target == ReferencesBib then content else old(state).source.bib)
    {
      if target == MainTex {
        state := state.(source := state.source.(mainTex := content));
      } else if target == ReferencesBib {
        state := state.(source := state.source.(bib := content));
      }
    }

    /** Runs the selected tool and collects its events. */
    method ExecuteTool(o: Oracle)
      requires state.toolToCall.Some?
      modifies this
      ensures state == Execute(old(state), o)
    {
      var tool, input := state.toolToCall.value.tool, state.toolToCall.value.input;
      var newEvents := [ToolStart(tool)];
      var before := state.events;
      if Edits(tool) {
        var target, content := Target(input), Content(input);
        EditLatexFiles(target, content);
        newEvents := newEvents + [ContentUpdate(target, content)];
        newEvents := newEvents + [ToolEnd(tool)];
        state := state.(lastTool := Some(tool));
      } else if Compiles(tool) {
        var count := state.compileCount + 1;
        newEvents := newEvents + [CompileAttempt(count, o.compiles)];
        newEvents := newEvents + [ToolEnd(CompileLatexE2b)];
        state := state.(lastTool := Some(CompileLatexE2b), compileCount := count,
                        compileResult := if o.compiles then Succeeded else Rejected,
                        compiled := state.compiled + [state.source]);
      } else if Reads(tool) {
        newEvents := newEvents + [ToolEnd(tool)];
        state := state.(lastTool := Some(tool), hasEvidence := state.hasEvidence || tool == QueryLibraryGraphRag);
      } else {
        state := state.(lastTool := Some(tool));
      }
      assert before + newEvents == Execute(old(state), o).events;
      state := state.(events := before + newEvents, node := HealingRouter);
    }

    /** Executes nodes until the run ends or the oracle falls silent. */
    method Run(src: Source, os: seq<Oracle>)
      requires state == Initial(setup, src)
      modifies this
      ensures state == After(setup, src, os)
      ensures |os| >= 19 && !setup.modelPlans ==> state.node.Ended?
    {
      var i := 0;
      while i < |os| && !state.node.Ended?
        invariant 0 <= i <= |os|
        invariant state == After(setup, src, os[..i])
      {
        assert os[..i + 1][..i] == os[..i] && os[..i + 1][i] == os[i];
        if state.node.ToolExecution? {
          ExecuteTool(os[i]);
        } else {
          state := Next(setup, state, os[i]);
        }
        i := i + 1;
      }
      if i < |os| {
        EndedStays(setup, src, os, i);
      } else {
        assert os[..i] == os;
      }
      RunEnds(setup, src, os);
      if |os| >= 19 && !setup.modelPlans && !state.node.Ended? {
        MeasureBound(setup, src, os);
        RunLedger(setup, src, os);
        RankFalls(setup, state, Oracle("", None, false));
      }
    }
  }

  lemma {:induction false} EndedStays(setup: Setup, src: Source, os: seq<Oracle>, i: nat)
    requires i <= |os| && After(setup, src, os[..i]).node.Ended?
    ensures After(setup, src, os) == After(setup, src, os[..i])
    decreases |os|
  {
    if i == |os| {
      assert os[..i] == os;
    } else {
      assert os[..|os| - 1][..i] == os[..i];
      EndedStays(setup, src, os[..|os| - 1], i);
    }
  }

  /** What one more event makes the service hold, whatever the stream. */
  lemma HeardOneMore(src: Source, events: seq<Event>, e: Event)
    ensures var before, after := HeardAll(src, events), HeardAll(src, events + [e]);
            && (e.ContentUpdate? ==>
                  && after.source.mainTex == (if e.targetFile == MainTex then e.content else before.source.mainTex)
                  && after.source.bib == (if e.targetFile == ReferencesBib then e.content else before.source.bib)
                  && after.attempts == before.attempts && after.answered == before.answered)
            && (e.CompileAttempt? ==> after == before.(attempts := e.attempt))
            && (e.Done? ==>
                  && after.answered && after.attempts == before.attempts
                  && after.source.mainTex ==
                      (if e.source.mainTex == "" then before.source.mainTex else e.source.mainTex)
                  && after.source.bib == if e.source.bib == "" then before.source.bib else e.source.bib)
            && (!e.ContentUpdate? && !e.CompileAttempt? && !e.Done? ==> after == before)
  {
    assert (events + [e])[..|events|] == events;
  }

  /** The service's loop over the stream. */
  method Listen(src: Source, events: seq<Event>) returns (mainTex: string, bib: string, attempts: int, answered: bool)
    ensures HeardAll(src, events) == Heard(Source(mainTex, bib), attempts, answered)
  {
    mainTex, bib, attempts, answered := src.mainTex, src.bib, 0, false;
    for i := 0 to |events|
      invariant HeardAll(src, events[..i]) == Heard(Source(mainTex, bib), attempts, answered)
    {
      assert events[..i + 1][..i] == events[..i];
      match events[i]
      case ContentUpdate(file, content) =>
        if file == MainTex {
          mainTex := content;
        } else if file == ReferencesBib {
          bib := content;
        }
      case CompileAttempt(n, _) =>
        attempts := n;
      case Done(_, _, _, final, _) =>
        if final.mainTex != "" {
          mainTex := final.mainTex;
        }
        if final.bib != "" {
          bib := final.bib;
        }
        answered := true;
      case _ =>
    }
    assert events[..|events|] == events;
  }
}
