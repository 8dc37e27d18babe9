/**
 A draft's two texts, its version for optimistic concurrency control, and its undo/redo snapshot,
 under updates by an editor, undo calls, and edits by the co-author agent.
*/
module DraftHistory {
  import opened Wrappers
  import opened LatexAgent
  import opened AgentStream

  /** A saved pair of texts with the version it was saved at. */
  datatype Saved = Saved(source: Source, version: int)

  /** What the snapshot column may hold: the two-way form, or the older one with fields that may be missing. */
  datatype Snapshot =
    | TwoWay(undo: Option<Saved>, redo: Option<Saved>)
    | OneWay(content: Option<string>, bibContent: Option<string>)

  datatype Draft = Draft(source: Source, version: int, snapshot: Option<Snapshot>)

  datatype Error = VersionConflict | NoSnapshot

  datatype Request =
    | Update(expected: int, content: Option<string>, bibContent: Option<string>)
    | Undo
    | ChatEdit(seen: Option<int>, current: Option<string>, currentBib: Option<string>, setup: Setup,
        oracles: seq<Oracle>)

  function Or<T>(given: Option<T>, default: T): T { if given.Some? then given.value else default }

  function Updated(d: Draft, expected: int, content: Option<string>, bibContent: Option<string>): Result<Draft, Error> {
    if d.version != expected then Err(VersionConflict)
    else Ok(Draft(Source(Or(content, d.source.mainTex), Or(bibContent, d.source.bib)), d.version + 1, d.snapshot))
  }

  function Undone(d: Draft): Result<Draft, Error> {
    var now := Some(Saved(d.source, d.version));
    match d.snapshot
    case None => Err(NoSnapshot)
    case Some(TwoWay(Some(saved), _)) => Ok(Draft(saved.source, d.version + 1, Some(TwoWay(None, now))))
    case Some(TwoWay(None, Some(saved))) => Ok(Draft(saved.source, d.version + 1, Some(TwoWay(now, None))))
    case Some(TwoWay(None, None)) => Err(NoSnapshot)
    case Some(OneWay(content, bib)) =>
      Ok(Draft(Source(Or(content, d.source.mainTex), Or(bib, d.source.bib)), d.version + 1, Some(TwoWay(None, now))))
  }

  /** The texts the agent starts from: those the client sent along, else those stored. */
  function Opened(d: Draft, current: Option<string>, currentBib: Option<string>): Source {
    Source(Or(current, d.source.mainTex), Or(currentBib, d.source.bib))
  }

  /** A snapshot is taken before the agent's edit only if there is none yet. */
  function Captured(d: Draft, start: Source): Option<Snapshot> {
    if d.snapshot == None then Some(TwoWay(Some(Saved(start, d.version)), None)) else d.snapshot
  }

  /** The agent's run, heard event by event, and what is stored afterwards. */
  ghost function Chatted(d: Draft, r: Request): Result<Draft, Error>
    requires r.ChatEdit?
  {
    if r.seen.Some? && d.version != r.seen.value then Err(VersionConflict)
    else
      var start := Opened(d, r.current, r.currentBib);
      var heard := HeardAll(start, After(r.setup, start, r.oracles).events);
      Ok(Draft(heard.source, d.version + 1, Captured(d, start)))
  }

  ghost function Handle(d: Draft, r: Request): Result<Draft, Error> {
    match r
    case Update(expected, content, bibContent) => Updated(d, expected, content, bibContent)
    case Undo => Undone(d)
    case ChatEdit(_, _, _, _, _) => Chatted(d, r)
  }

  ghost function Apply(d: Draft, r: Request): Draft {
    match Handle(d, r)
    case Ok(after) => after
    case Err(_) => d
  }

  /** The draft before the i-th request of a run. */
  ghost function Before(d: Draft, rs: seq<Request>, i: nat): Draft
    requires i <= |rs|
  {
    if i == 0 then d else Apply(Before(d, rs, i - 1), rs[i - 1])
  }

  // ---- Versions -----------------------------------------------------------------------------------

  /** A request that is carried out raises the version; a refused one changes nothing. */
  lemma VersionRises(d: Draft, r: Request)
    ensures if Handle(d, r).Ok? then Apply(d, r).version > d.version else Apply(d, r) == d
  {
  }

  /** The version a request was written against, if it says so: an update must, an agent edit may. */
  function Expects(r: Request): Option<int> {
    match r
    case Update(expected, _, _) => Some(expected)
    case Undo => None
    case ChatEdit(seen, _, _, _, _) => seen
  }

  /** Only a request that expects the current version, or none, is carried out. */
  lemma AcceptedExpectsCurrent(d: Draft, r: Request)
    requires Handle(d, r).Ok?
    ensures Expects(r).Some? ==> Expects(r).value == d.version
  {
  }

  lemma {:induction false} VersionNeverFalls(d: Draft, rs: seq<Request>, i: nat, j: nat)
    requires i <= j <= |rs|
    ensures Before(d, rs, i).version <= Before(d, rs, j).version
    decreases j
  {
    if i < j {
      VersionNeverFalls(d, rs, i, j - 1);
      VersionRises(Before(d, rs, j - 1), rs[j - 1]);
    }
  }

  lemma AcceptedBelowNext(d: Draft, rs: seq<Request>, i: nat)
    requires i < |rs| && Expects(rs[i]).Some? && Handle(Before(d, rs, i), rs[i]).Ok?
    ensures Expects(rs[i]).value == Before(d, rs, i).version < Before(d, rs, i + 1).version
  {
    AcceptedExpectsCurrent(Before(d, rs, i), rs[i]);
    VersionRises(Before(d, rs, i), rs[i]);
  }

  /**
   In any run the versions expected by the accepted updates and agent edits that carry one strictly
   increase: no two of them were written against one version.
  */
  lemma AcceptedExpectationsRise(d: Draft, rs: seq<Request>, i: nat, j: nat)
    requires i < j < |rs| && Expects(rs[i]).Some? && Expects(rs[j]).Some?
    requires Handle(Before(d, rs, i), rs[i]).Ok? && Handle(Before(d, rs, j), rs[j]).Ok?
    ensures Expects(rs[i]).value < Expects(rs[j]).value
  {
    AcceptedBelowNext(d, rs, i);
    VersionNeverFalls(d, rs, i + 1, j);
    AcceptedBelowNext(d, rs, j);
  }

  // ---- What each request stores -------------------------------------------------------------------

  /** An update is carried out exactly against the current version, stores what it is given, and keeps the rest. */
  lemma UpdateEffect(d: Draft, expected: int, content: Option<string>, bibContent: Option<string>)
    ensures Handle(d, Update(expected, content, bibContent)).Ok? <==> expected == d.version
    ensures expected == d.version ==>
              var t := Apply(d, Update(expected, content, bibContent));
              && (content.Some? ==> t.source.mainTex == content.value)
              && (content.None? ==> t.source.mainTex == d.source.mainTex)
              && (bibContent.Some? ==> t.source.bib == bibContent.value)
              && (bibContent.None? ==> t.source.bib == d.source.bib)
              && t.snapshot == d.snapshot && t.version > d.version
  {
  }

  /** Undo restores the undo slot if it is filled, else the redo slot, and keeps the present in the other one. */
  lemma UndoEffect(d: Draft, undo: Option<Saved>, redo: Option<Saved>)
    requires d.snapshot == Some(TwoWay(undo, redo)) && (undo.Some? || redo.Some?)
    ensures var t, now := Apply(d, Undo), Some(Saved(d.source, d.version));
            && (undo.Some? ==> t.source == undo.value.source && t.snapshot == Some(TwoWay(None, now)))
            && (undo.None? ==> t.source == redo.value.source && t.snapshot == Some(TwoWay(now, None)))
            && t.version > d.version
  {
  }

  /** A snapshot of the older form is restored field by field, and the present becomes what redo brings back. */
  lemma OneWayUndoEffect(d: Draft, content: Option<string>, bib: Option<string>)
    requires d.snapshot == Some(OneWay(content, bib))
    ensures var t := Apply(d, Undo);
            && t.source.mainTex == (match content case Some(c) => c case None => d.source.mainTex)
            && t.source.bib == (match bib case Some(c) => c case None => d.source.bib)
            && t.snapshot == Some(TwoWay(None, Some(Saved(d.source, d.version))))
            && Apply(t, Undo).source == d.source
  {
  }

  /** Without a filled slot undo is refused. */
  lemma UndoRefusedIff(d: Draft)
    ensures Handle(d, Undo).Err? <==> d.snapshot == None || d.snapshot == Some(TwoWay(None, None))
  {
  }

  /**
   An agent edit is refused exactly if it sends a version that is not the current one. Its snapshot,
   taken only if there is none, holds the texts the agent started from: the client's where sent, else
   the stored ones.
  */
  lemma ChatEffect(d: Draft, r: Request)
    requires r.ChatEdit?
    ensures Handle(d, r).Ok? <==> r.seen == None || r.seen == Some(d.version)
    ensures Handle(d, r).Ok? ==>
              var t := Apply(d, r);
              var start := Source(match r.current case Some(c) => c case None => d.source.mainTex,
                                  match r.currentBib case Some(c) => c case None => d.source.bib);
              && t.source == After(r.setup, start, r.oracles).source && t.version > d.version
              && (d.snapshot == None ==> t.snapshot == Some(TwoWay(Some(Saved(start, d.version)), None)))
              && (d.snapshot != None ==> t.snapshot == d.snapshot)
  {
    if Handle(d, r).Ok? {
      ChatStoresAgentTexts(d, r);
    }
  }

  // ---- Undo and redo ------------------------------------------------------------------------------

  /** The snapshots the service itself records: none, or exactly one slot filled. */
  predicate OneSlot(d: Draft) {
    d.snapshot.Some? ==> d.snapshot.value.TwoWay? && (d.snapshot.value.undo.Some? <==> d.snapshot.value.redo.None?)
  }

  /** The texts that the next undo call would bring back. */
  function Stored(d: Draft): Source
    requires OneSlot(d) && d.snapshot.Some?
  {
    var s := d.snapshot.value;
    if s.undo.Some? then s.undo.value.source else s.redo.value.source
  }

  lemma {:induction false} RunsKeepOneSlot(d: Draft, rs: seq<Request>, i: nat)
    requires OneSlot(d) && i <= |rs|
    ensures OneSlot(Before(d, rs, i))
    decreases i
  {
    if i > 0 {
      RunsKeepOneSlot(d, rs, i - 1);
    }
  }

  /** One undo call exchanges the current and the stored texts. */
  lemma UndoSwaps(d: Draft)
    requires OneSlot(d)
    ensures Undone(d).Ok? <==> d.snapshot.Some?
    ensures d.snapshot.Some? ==>
              && OneSlot(Undone(d).value) && Undone(d).value.snapshot.Some?
              && Undone(d).value.source == Stored(d) && Stored(Undone(d).value) == d.source
  {
  }

  ghost function Undos(d: Draft, n: nat): Draft {
    if n == 0 then d else Apply(Undos(d, n - 1), Undo)
  }

  /** Any even number of undo calls restores both texts, and any odd number brings back the stored ones. */
  lemma {:induction false} EvenUndosRestore(d: Draft, n: nat)
    requires OneSlot(d) && d.snapshot.Some?
    ensures OneSlot(Undos(d, n)) && Undos(d, n).snapshot.Some?
    ensures Undos(d, n).source == if n % 2 == 0 then d.source else Stored(d)
    ensures Stored(Undos(d, n)) == if n % 2 == 0 then Stored(d) else d.source
    decreases n
  {
    if n > 0 {
      EvenUndosRestore(d, n - 1);
      UndoSwaps(Undos(d, n - 1));
    }
  }

  // ---- The agent's edit ---------------------------------------------------------------------------

  /** What is stored after a chat edit is exactly the agent's own final texts. */
  lemma ChatStoresAgentTexts(d: Draft, r: Request)
    requires r.ChatEdit? && Chatted(d, r).Ok?
    ensures Chatted(d, r).value.source == After(r.setup, Opened(d, r.current, r.currentBib), r.oracles).source
  {
    ServiceFollowsAgent(r.setup, Opened(d, r.current, r.currentBib), r.oracles);
  }

  /**
   Undoing right after an agent's edit brings back the texts the agent started from exactly when
   no snapshot was stored before the edit, or the stored one happens to hold those very texts.
   A snapshot that is already there is not replaced.
  */
  lemma UndoAfterEditRestoresIff(d: Draft, r: Request)
    requires OneSlot(d) && r.ChatEdit? && Chatted(d, r).Ok?
    ensures var edited := Chatted(d, r).value;
            && Undone(edited).Ok?
            && (Undone(edited).value.source == Opened(d, r.current, r.currentBib) <==>
                d.snapshot == None || Stored(d) == Opened(d, r.current, r.currentBib))
  {
    UndoSwaps(Chatted(d, r).value);
  }

  /**
   And the old snapshot may hold another text: of two agent edits in a row, undo after the second
   goes back behind the first, whose text is then in no slot.
  */
  lemma UndoSkipsFirstEdit(setup: Setup, start: Source, first: string, second: string) returns (rs: seq<Request>)
    requires setup.modelPlans
    requires Key(setup, Source(first, start.bib)) != Key(setup, start)
    requires Key(setup, Source(second, start.bib)) != Key(setup, Source(first, start.bib))
    ensures var d := Draft(start, 1, None);
            && |rs| == 2 && rs[0].ChatEdit? && rs[1].ChatEdit?
            && Before(d, rs, 1).source == Source(first, start.bib)
            && Before(d, rs, 2).source == Source(second, start.bib)
            && Undone(Before(d, rs, 2)).Ok?
            && Undone(Before(d, rs, 2)).value.source == start != Source(first, start.bib)
            && Stored(Undone(Before(d, rs, 2)).value) == Source(second, start.bib)
  {
    var d := Draft(start, 1, None);
    var os := EditRun(setup, start, first);
    var more := EditRun(setup, Source(first, start.bib), second);
    rs := [ChatEdit(None, None, None, setup, os), ChatEdit(None, None, None, setup, more)];
    ChatStoresAgentTexts(d, rs[0]);
    assert Before(d, rs, 1) == Apply(Before(d, rs, 0), rs[0]);
    ChatStoresAgentTexts(Before(d, rs, 1), rs[1]);
    assert Before(d, rs, 2) == Apply(Before(d, rs, 1), rs[1]);
    UndoSwaps(Before(d, rs, 2));
  }

  // ---- The row ------------------------------------------------------------------------------------

  class DraftModel {
    var content: string
    var bibContent: string
    var version: int
    var previousSnapshot: Option<Snapshot>

    constructor (content: string, bibContent: string)
      ensures Row() == Draft(Source(content, bibContent), 1, None)
    {
      this.content, this.bibContent, version, previousSnapshot := content, bibContent, 1, None;
    }

    function Row(): Draft
      reads this
    {
      Draft(Source(content, bibContent), version, previousSnapshot)
    }

    method UpdateDraft(expected: int, newContent: Option<string>, newBib: Option<string>) returns (e: Option<Error>)
      modifies this
      ensures Row() == Apply(old(Row()), Update(expected, newContent, newBib))
      ensures e == match Updated(old(Row()), expected, newContent, newBib) case Ok(_) => None case Err(x) => Some(x)
    {
      if version != expected {
        return Some(VersionConflict);
      }
      if newContent.Some? {
        content := newContent.value;
      }
      if newBib.Some? {
        bibContent := newBib.value;
      }
      version := version + 1;
      return None;
    }

    method UndoDraftSnapshot() returns (e: Option<Error>)
      modifies this
      ensures Row() == Apply(old(Row()), Undo)
      ensures e == match Undone(old(Row())) case Ok(_) => None case Err(x) => Some(x)
    {
      if previousSnapshot == None {
        return Some(NoSnapshot);
      }
      var now := Some(Saved(Source(content, bibContent), version));
      var restored: Source;
      var newSnapshot: Snapshot;
      match previousSnapshot.value {
        case TwoWay(undo, redo) =>
          if undo.Some? {
            restored, newSnapshot := undo.value.source, TwoWay(None, now);
          } else if redo.Some? {
            restored, newSnapshot := redo.value.source, TwoWay(now, None);
          } else {
            return Some(NoSnapshot);
          }
        case OneWay(c, b) =>
          restored, newSnapshot := Source(Or(c, content), Or(b, bibContent)), TwoWay(None, now);
      }
      content := restored.mainTex;
      bibContent := restored.bib;
      previousSnapshot := Some(newSnapshot);
      version := version + 1;
      return None;
    }

    method ListenToAgent(src: Source, setup: Setup, oracles: seq<Oracle>) returns (finalMain: string, finalBib: string)
      ensures HeardAll(src, After(setup, src, oracles).events).source == Source(finalMain, finalBib)
    {
      var agent := new Coauthor(setup, src);
      agent.Run(src, oracles);
      var attempts, answered;
      finalMain, finalBib, attempts, answered := Listen(src, agent.state.events);
    }

    /** Runs the agent on the draft, listens to its stream, and stores what was heard. */
    method StreamChatAssist(seen: Option<int>, current: Option<string>, currentBib: Option<string>,
                            setup: Setup, oracles: seq<Oracle>)
      returns (e: Option<Error>)
      modifies this
      ensures Row() == Apply(old(Row()), ChatEdit(seen, current, currentBib, setup, oracles))
      ensures e == if seen.Some? && old(version) != seen.value then Some(VersionConflict) else None
    {
      if seen.Some? && version != seen.value {
        return Some(VersionConflict);
      }
      if current.Some? {
        content := current.value;
      }
      if currentBib.Some? {
        bibContent := currentBib.value;
      }
      var src := Source(content, bibContent);
      var snapshotToSave: Option<Snapshot> := None;
      if previousSnapshot == None {
        snapshotToSave := Some(TwoWay(Some(Saved(src, version)), None));
      }
      var finalMain, finalBib := ListenToAgent(src, setup, oracles);
      if snapshotToSave.Some? {
        previousSnapshot := snapshotToSave;
      }
      content := finalMain;
      bibContent := finalBib;
      version := version + 1;
      return None;
    }
  }
}
