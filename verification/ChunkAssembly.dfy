/**
 Assembling a document's ordered text blocks into chunks. A paragraph is pending until something
 closes it; one that is cut by the end of its page waits in a one-place buffer for a continuation.
*/
module ChunkAssembly {
  import opened Wrappers
  import opened Sequences
  import opened PageOrder

  datatype BoundingBox = BoundingBox(x0: real, y0: real, x1: real, y1: real, page: int)

  datatype Chunk = Chunk(index: int, page: int, content: string, formula: Option<string>,
                         boxes: seq<BoundingBox>, tokens: nat)

  /** A paragraph waiting for its continuation on a later page. */
  datatype Held = Held(text: string, boxes: seq<BoundingBox>, page: int)

  /** The text heuristics, about which nothing is assumed. */
  datatype TextRules = TextRules(
    clean: string -> string,
    isCaption: string -> bool,
    isEquation: string -> bool,
    isHeading: string -> bool,
    isMetadata: string -> bool,
    hasEmail: string -> bool,
    startsLower: string -> bool,
    words: string -> nat,
    tidy: string -> string,
    latex: string -> string,
    ratio: (real, real) -> real)

  function Clip(r: real): real { Max(0.0, Min(1.0, r)) }

  /** The normalised box, unless it is empty. */
  function BoxOf(rules: TextRules, b: Block): Option<BoundingBox> {
    var x0, y0 := Clip(rules.ratio(b.x0, b.width)), Clip(rules.ratio(b.y0, b.height));
    var x1, y1 := Clip(rules.ratio(b.x1, b.width)), Clip(rules.ratio(b.y1, b.height));
    if x1 <= x0 || y1 <= y0 then None else Some(BoundingBox(x0, y0, x1, y1, b.page))
  }

  /** The box of a block that is not skipped. */
  function Accepted(rules: TextRules, b: Block): Option<BoundingBox> {
    if rules.clean(b.text) == "" then None else BoxOf(rules, b)
  }

  function AllAccepted(rules: TextRules, blocks: seq<Block>): seq<BoundingBox> {
    if blocks == [] then []
    else
      AllAccepted(rules, blocks[..|blocks| - 1]) +
      match Accepted(rules, blocks[|blocks| - 1]) case None => [] case Some(x) => [x]
  }

  predicate EndsSentence(t: string)
    requires t != ""
  {
    var c := t[|t| - 1];
    c == '.' || c == '!' || c == '?' || c == ':' || c == '"' || c == '\U{201D}' || c == ')' || c == ']' || c == ';'
  }

  predicate EndsHyphen(t: string) { t != "" && t[|t| - 1] == '-' }

  /** Stitches a continuation on, dropping the hyphen of a word cut in two. */
  function Stitch(t: string, cleaned: string): string {
    if EndsHyphen(t) then t[..|t| - 1] + cleaned else t + " " + cleaned
  }

  function Tokens(n: nat): nat { if n == 0 then 1 else n }

  // ---- The assembler's state and its steps --------------------------------------------------------

  /** `dropped` accounts for boxes whose text the assembler forgets; the program has no such list. */
  datatype State = State(
    chunks: seq<Chunk>,
    pendingText: string, pendingBoxes: seq<BoundingBox>, pendingPage: int, pendingIsHeading: bool,
    counter: int,
    buffer: Option<Held>,
    dropped: seq<BoundingBox>)

  const START := State([], "", [], 1, false, 0, None, [])

  function ChunkFrom(rules: TextRules, index: int, text: string, boxes: seq<BoundingBox>, page: int): Chunk {
    var content := rules.tidy(text);
    Chunk(index, page, content, None, boxes, Tokens(rules.words(content)))
  }

  function FlushPending(rules: TextRules, s: State): State {
    if s.pendingText == "" then s
    else
      s.(chunks := s.chunks + [ChunkFrom(rules, s.counter, s.pendingText, s.pendingBoxes, s.pendingPage)],
         counter := s.counter + 1, pendingText := "", pendingBoxes := [], pendingIsHeading := false)
  }

  function FlushCrossPage(rules: TextRules, s: State): State {
    if s.buffer.None? then s
    else
      var held := s.buffer.value;
      s.(chunks := s.chunks + [ChunkFrom(rules, s.counter, held.text, held.boxes, held.page)],
         counter := s.counter + 1, buffer := None)
  }

  function BoxesHeld(s: State): seq<BoundingBox> {
    if s.buffer.Some? then s.buffer.value.boxes else []
  }

  /** A page is turned with a paragraph pending: an unfinished one goes to the buffer, over what is there. */
  function TurnPage(rules: TextRules, s: State, page: int): State {
    if page > s.pendingPage && s.pendingText != "" then
      if !EndsSentence(s.pendingText) then
        s.(buffer := Some(Held(s.pendingText, s.pendingBoxes, s.pendingPage)), pendingText := "", pendingBoxes := [],
           dropped := s.dropped + BoxesHeld(s))
      else FlushPending(rules, s)
    else s
  }

  predicate Continues(rules: TextRules, s: State, cleaned: string) {
    && s.buffer.Some? && rules.startsLower(cleaned)
    && !rules.isCaption(cleaned) && !rules.isEquation(cleaned) && !rules.isHeading(cleaned)
  }

  /** The buffered paragraph resumes; whatever was pending is overwritten. */
  function Resume(s: State, cleaned: string, box: BoundingBox): State
    requires s.buffer.Some?
  {
    var held := s.buffer.value;
    s.(pendingText := Stitch(held.text, cleaned), pendingBoxes := held.boxes + [box], pendingPage := held.page,
       buffer := None, dropped := s.dropped + s.pendingBoxes)
  }

  function EmitAlone(rules: TextRules, s: State, cleaned: string, box: BoundingBox, page: int): State {
    var s := FlushPending(rules, s);
    var formula := if rules.isEquation(cleaned) then Some(rules.latex(cleaned)) else None;
    var content := if formula.Some? && formula.value != "" then formula.value else cleaned;
    s.(chunks := s.chunks + [Chunk(s.counter, page, content, formula, [box], Tokens(rules.words(cleaned)))],
       counter := s.counter + 1)
  }

  function TakeHeading(rules: TextRules, s: State, cleaned: string, box: BoundingBox, page: int): State {
    if s.pendingIsHeading && page == s.pendingPage then
      s.(pendingText := s.pendingText + " - " + cleaned, pendingBoxes := s.pendingBoxes + [box])
    else
      FlushPending(rules, FlushCrossPage(rules, s)).(
        pendingText := cleaned, pendingBoxes := [box], pendingPage := page, pendingIsHeading := true)
  }

  predicate CanMerge(rules: TextRules, s: State, cleaned: string, page: int, target: int) {
    && s.pendingText != "" && page == s.pendingPage
    && (s.pendingIsHeading ||
        var prevIsMeta, isMetadata := rules.hasEmail(s.pendingText), rules.isMetadata(cleaned);
        if !isMetadata && prevIsMeta then false
        else if isMetadata && prevIsMeta then true
        else
          && (EndsHyphen(s.pendingText) || !EndsSentence(s.pendingText) || rules.startsLower(cleaned))
          && rules.words(s.pendingText) + rules.words(cleaned) < target)
  }

  function TakeProse(rules: TextRules, s: State, cleaned: string, box: BoundingBox, page: int, target: int): State {
    if CanMerge(rules, s, cleaned, page, target) then
      s.(pendingText := Stitch(s.pendingText, cleaned), pendingBoxes := s.pendingBoxes + [box],
         pendingIsHeading := false)
    else
      FlushPending(rules, s).(pendingText := cleaned, pendingBoxes := [box], pendingPage := page)
  }

  function TakeBlock(rules: TextRules, target: int, s: State, cleaned: string, box: BoundingBox, page: int): State {
    if Continues(rules, s, cleaned) then Resume(s, cleaned, box)
    else if rules.isCaption(cleaned) || rules.isEquation(cleaned) then EmitAlone(rules, s, cleaned, box, page)
    else if rules.isHeading(cleaned) then TakeHeading(rules, s, cleaned, box, page)
    else TakeProse(rules, s, cleaned, box, page, target)
  }

  function Step(rules: TextRules, target: int, s: State, b: Block): State {
    var cleaned := rules.clean(b.text);
    if Accepted(rules, b).None? then s
    else
      TakeBlock(rules, target, TurnPage(rules, s, b.page), cleaned, Accepted(rules, b).value, b.page)
  }

  /** The state once all blocks have been taken, before the last flushes. */
  function After(rules: TextRules, target: int, blocks: seq<Block>): State {
    if blocks == [] then START
    else Step(rules, target, After(rules, target, blocks[..|blocks| - 1]), blocks[|blocks| - 1])
  }

  function Finish(rules: TextRules, s: State): State {
    FlushPending(rules, FlushCrossPage(rules, s))
  }

  function Assembled(rules: TextRules, target: int, blocks: seq<Block>): State {
    Finish(rules, After(rules, target, blocks))
  }

  // ---- Accounting ---------------------------------------------------------------------------------

  function Boxes(chunks: seq<Chunk>): seq<BoundingBox> {
    if chunks == [] then [] else Boxes(chunks[..|chunks| - 1]) + chunks[|chunks| - 1].boxes
  }

  lemma BoxesOfOneMore(chunks: seq<Chunk>, c: Chunk)
    ensures Boxes(chunks + [c]) == Boxes(chunks) + c.boxes
  {
    assert (chunks + [c])[..|chunks|] == chunks;
  }

  /** Chunks are numbered as they are emitted, and text is never held without its boxes. */
  ghost predicate Valid(s: State) {
    && s.counter == |s.chunks|
    && (forall i :: 0 <= i < |s.chunks| ==> s.chunks[i].index == i)
    && (s.pendingText == "" <==> s.pendingBoxes == [])
    && (s.buffer.Some? ==> s.buffer.value.text != "" && s.buffer.value.boxes != [])
  }

  /** Where the boxes are: in the chunks, in the buffer, pending, or forgotten. */
  datatype Flow = Flow(emitted: seq<BoundingBox>, held: seq<BoundingBox>, pending: seq<BoundingBox>,
      dropped: seq<BoundingBox>)

  ghost function FlowOf(s: State): Flow {
    Flow(Boxes(s.chunks), BoxesHeld(s), s.pendingBoxes, s.dropped)
  }

  ghost function Account(f: Flow): multiset<BoundingBox> {
    multiset(f.emitted) + multiset(f.held) + multiset(f.pending) + multiset(f.dropped)
  }

  lemma FlushPendingFlow(rules: TextRules, s: State)
    requires Valid(s)
    ensures Valid(FlushPending(rules, s))
    ensures var f := FlowOf(s); FlowOf(FlushPending(rules, s)) == Flow(f.emitted + f.pending, f.held, [], f.dropped)
  {
    if s.pendingText != "" {
      BoxesOfOneMore(s.chunks, ChunkFrom(rules, s.counter, s.pendingText, s.pendingBoxes, s.pendingPage));
    }
  }

  lemma FlushCrossPageFlow(rules: TextRules, s: State)
    requires Valid(s)
    ensures Valid(FlushCrossPage(rules, s))
    ensures var f := FlowOf(s); FlowOf(FlushCrossPage(rules, s)) == Flow(f.emitted + f.held, [], f.pending, f.dropped)
  {
    if s.buffer.Some? {
      var held := s.buffer.value;
      BoxesOfOneMore(s.chunks, ChunkFrom(rules, s.counter, held.text, held.boxes, held.page));
    }
  }

  /** The page turns on an unfinished paragraph. */
  predicate Cut(s: State, page: int) {
    page > s.pendingPage && s.pendingText != "" && !EndsSentence(s.pendingText)
  }

  /** The page turns on a finished paragraph. */
  predicate Closed(s: State, page: int) {
    page > s.pendingPage && s.pendingText != "" && EndsSentence(s.pendingText)
  }

  lemma TurnPageFlow(rules: TextRules, s: State, page: int)
    requires Valid(s)
    ensures Valid(TurnPage(rules, s, page))
    ensures var f := FlowOf(s);
            FlowOf(TurnPage(rules, s, page)) ==
            if Cut(s, page) then Flow(f.emitted, f.pending, [], f.dropped + f.held)
            else if Closed(s, page) then Flow(f.emitted + f.pending, f.held, [], f.dropped)
            else f
  {
    FlushPendingFlow(rules, s);
  }

  lemma EmitAloneFlow(rules: TextRules, s: State, cleaned: string, box: BoundingBox, page: int)
    requires Valid(s)
    ensures Valid(EmitAlone(rules, s, cleaned, box, page))
    ensures var f := FlowOf(s);
            FlowOf(EmitAlone(rules, s, cleaned, box, page)) ==
                Flow(f.emitted + f.pending + [box], f.held, [], f.dropped)
  {
    FlushPendingFlow(rules, s);
    var t := FlushPending(rules, s);
    var u := EmitAlone(rules, s, cleaned, box, page);
    assert u.chunks == t.chunks + [u.chunks[|t.chunks|]];
    BoxesOfOneMore(t.chunks, u.chunks[|t.chunks|]);
  }

  lemma TakeHeadingFlow(rules: TextRules, s: State, cleaned: string, box: BoundingBox, page: int)
    requires Valid(s) && cleaned != ""
    ensures Valid(TakeHeading(rules, s, cleaned, box, page))
    ensures var f := FlowOf(s);
            FlowOf(TakeHeading(rules, s, cleaned, box, page)) ==
            if s.pendingIsHeading && page == s.pendingPage then Flow(f.emitted, f.held, f.pending + [box], f.dropped)
            else Flow(f.emitted + f.held + f.pending, [], [box], f.dropped)
  {
    FlushCrossPageFlow(rules, s);
    FlushPendingFlow(rules, FlushCrossPage(rules, s));
  }

  lemma TakeProseFlow(rules: TextRules, s: State, cleaned: string, box: BoundingBox, page: int, target: int)
    requires Valid(s) && cleaned != ""
    ensures Valid(TakeProse(rules, s, cleaned, box, page, target))
    ensures var f := FlowOf(s);
            FlowOf(TakeProse(rules, s, cleaned, box, page, target)) ==
            if CanMerge(rules, s, cleaned, page, target) then Flow(f.emitted, f.held, f.pending + [box], f.dropped)
            else Flow(f.emitted + f.pending, f.held, [box], f.dropped)
  {
    FlushPendingFlow(rules, s);
  }

  lemma ResumeFlow(s: State, cleaned: string, box: BoundingBox)
    requires Valid(s) && s.buffer.Some? && cleaned != ""
    ensures Valid(Resume(s, cleaned, box))
    ensures var f := FlowOf(s);
            FlowOf(Resume(s, cleaned, box)) == Flow(f.emitted, [], f.held + [box], f.dropped + f.pending)
  {
  }

  /** What the page turn did, and which of the loop's branches took the block. */
  datatype Turn = Stays | Cuts | Closes

  datatype Move = Resumes | Alone | Joins | Heads | Replaces

  function TurnOf(s: State, page: int): Turn {
    if Cut(s, page) then Cuts else if Closed(s, page) then Closes else Stays
  }

  function MoveOf(rules: TextRules, target: int, t: State, cleaned: string, page: int): Move {
    if Continues(rules, t, cleaned) then Resumes
    else if rules.isCaption(cleaned) || rules.isEquation(cleaned) then Alone
    else if rules.isHeading(cleaned) then (if t.pendingIsHeading && page == t.pendingPage then Joins else Heads)
    else if CanMerge(rules, t, cleaned, page, target) then Joins
    else Replaces
  }

  ghost function Turned(f: Flow, turn: Turn): Flow {
    match turn
    case Stays => f
    case Cuts => Flow(f.emitted, f.pending, [], f.dropped + f.held)
    case Closes => Flow(f.emitted + f.pending, f.held, [], f.dropped)
  }

  ghost function Moved(f: Flow, move: Move, box: BoundingBox): Flow {
    match move
    case Resumes => Flow(f.emitted, [], f.held + [box], f.dropped + f.pending)
    case Alone => Flow(f.emitted + f.pending + [box], f.held, [], f.dropped)
    case Joins => Flow(f.emitted, f.held, f.pending + [box], f.dropped)
    case Heads => Flow(f.emitted + f.held + f.pending, [], [box], f.dropped)
    case Replaces => Flow(f.emitted + f.pending, f.held, [box], f.dropped)
  }

  /** One block moves the boxes as its page turn and its branch say. */
  lemma StepFlow(rules: TextRules, target: int, s: State, b: Block)
    requires Valid(s) && Accepted(rules, b).Some?
    ensures Valid(Step(rules, target, s, b))
    ensures var t := TurnPage(rules, s, b.page);
            && FlowOf(t) == Turned(FlowOf(s), TurnOf(s, b.page))
            && FlowOf(Step(rules, target, s, b)) ==
               Moved(FlowOf(t), MoveOf(rules, target, t, rules.clean(b.text), b.page), Accepted(rules, b).value)
  {
    TurnPageFlow(rules, s, b.page);
    TakeBlockFlow(rules, target, TurnPage(rules, s, b.page), rules.clean(b.text), Accepted(rules, b).value, b.page);
  }

  lemma TakeBlockFlow(rules: TextRules, target: int, t: State, cleaned: string, box: BoundingBox, page: int)
    requires Valid(t) && cleaned != ""
    ensures Valid(TakeBlock(rules, target, t, cleaned, box, page))
    ensures FlowOf(TakeBlock(rules, target, t, cleaned, box, page)) ==
            Moved(FlowOf(t), MoveOf(rules, target, t, cleaned, page), box)
  {
    if Continues(rules, t, cleaned) {
      ResumeFlow(t, cleaned, box);
    } else if rules.isCaption(cleaned) || rules.isEquation(cleaned) {
      EmitAloneFlow(rules, t, cleaned, box, page);
    } else if rules.isHeading(cleaned) {
      TakeHeadingFlow(rules, t, cleaned, box, page);
    } else {
      TakeProseFlow(rules, t, cleaned, box, page, target);
    }
  }

  lemma MovedAccount(f: Flow, move: Move, box: BoundingBox)
    ensures Account(Moved(f, move, box)) == Account(f) + multiset{box}
  {
  }

  lemma TurnedAccount(f: Flow, turn: Turn)
    ensures Account(Turned(f, turn)) == Account(f)
  {
  }

  /** One block is accounted for by one box: emitted, pending, buffered, or dropped. */
  lemma StepAccounts(rules: TextRules, target: int, s: State, b: Block)
    requires Valid(s)
    ensures Valid(Step(rules, target, s, b))
    ensures Account(FlowOf(Step(rules, target, s, b))) ==
            Account(FlowOf(s)) + match Accepted(rules, b) case None => multiset{} case Some(x) => multiset{x}
  {
    if Accepted(rules, b).Some? {
      var t := TurnPage(rules, s, b.page);
      StepFlow(rules, target, s, b);
      TurnedAccount(FlowOf(s), TurnOf(s, b.page));
      MovedAccount(FlowOf(t), MoveOf(rules, target, t, rules.clean(b.text), b.page), Accepted(rules, b).value);
    }
  }

  /** At every point of the loop the accepted boxes are exactly those emitted, pending, buffered and dropped. */
  lemma {:induction false} EveryBoxAccounted(rules: TextRules, target: int, blocks: seq<Block>)
    ensures Valid(After(rules, target, blocks))
    ensures Account(FlowOf(After(rules, target, blocks))) == multiset(AllAccepted(rules, blocks))
  {
    if blocks != [] {
      EveryBoxAccounted(rules, target, blocks[..|blocks| - 1]);
      StepAccounts(rules, target, After(rules, target, blocks[..|blocks| - 1]), blocks[|blocks| - 1]);
    }
  }

  lemma FinishFlow(rules: TextRules, s: State)
    requires Valid(s)
    ensures Valid(Finish(rules, s))
    ensures var f := FlowOf(s); FlowOf(Finish(rules, s)) == Flow(f.emitted + f.held + f.pending, [], [], f.dropped)
  {
    FlushCrossPageFlow(rules, s);
    FlushPendingFlow(rules, FlushCrossPage(rules, s));
  }

  /** The answer: numbered 0, 1, 2, ..., and with the dropped boxes it holds every accepted box once. */
  lemma AssembledAccounts(rules: TextRules, target: int, blocks: seq<Block>)
    ensures var s := Assembled(rules, target, blocks);
            && (forall i :: 0 <= i < |s.chunks| ==> s.chunks[i].index == i)
            && multiset(Boxes(s.chunks)) + multiset(s.dropped) == multiset(AllAccepted(rules, blocks))
  {
    EveryBoxAccounted(rules, target, blocks);
    FinishFlow(rules, After(rules, target, blocks));
  }

  // ---- When text is lost --------------------------------------------------------------------------

  /** The block would push an unfinished paragraph onto an occupied buffer. */
  predicate OverwritesBuffer(rules: TextRules, s: State, b: Block) {
    Accepted(rules, b).Some? && Cut(s, b.page) && s.buffer.Some?
  }

  /** The block continues the buffered paragraph while another paragraph is pending. */
  predicate OverwritesPending(rules: TextRules, s: State, b: Block) {
    && Accepted(rules, b).Some?
    && Continues(rules, TurnPage(rules, s, b.page), rules.clean(b.text))
    && TurnPage(rules, s, b.page).pendingText != ""
  }

  predicate Loses(rules: TextRules, s: State, b: Block) {
    OverwritesBuffer(rules, s, b) || OverwritesPending(rules, s, b)
  }

  /** The two guards in terms of where the boxes are. */
  lemma LosesFlow(rules: TextRules, target: int, s: State, b: Block)
    requires Valid(s) && Accepted(rules, b).Some?
    ensures var turn, t := TurnOf(s, b.page), TurnPage(rules, s, b.page);
            Loses(rules, s, b) <==>
            || (turn.Cuts? && FlowOf(s).held != [])
            || (MoveOf(rules, target, t, rules.clean(b.text), b.page).Resumes? && FlowOf(t).pending != [])
  {
    TurnPageFlow(rules, s, b.page);
  }

  /** A step drops boxes at the two overwriting sites and nowhere else, and what is dropped stays dropped. */
  lemma StepDropsIffOverwrites(rules: TextRules, target: int, s: State, b: Block)
    requires Valid(s)
    ensures FlowOf(s).dropped <= FlowOf(Step(rules, target, s, b)).dropped
    ensures FlowOf(Step(rules, target, s, b)).dropped != FlowOf(s).dropped <==> Loses(rules, s, b)
  {
    if Accepted(rules, b).Some? {
      StepFlow(rules, target, s, b);
      LosesFlow(rules, target, s, b);
      var t := TurnPage(rules, s, b.page);
      DropsInFlow(FlowOf(s), TurnOf(s, b.page), MoveOf(rules, target, t, rules.clean(b.text), b.page),
          Accepted(rules, b).value);
    }
  }

  lemma DropsInFlow(f: Flow, turn: Turn, move: Move, box: BoundingBox)
    ensures var g := Turned(f, turn);
            && f.dropped <= Moved(g, move, box).dropped
            && (Moved(g, move, box).dropped != f.dropped <==>
                (turn.Cuts? && f.held != []) || (move.Resumes? && g.pending != []))
  {
    var g := Turned(f, turn);
    assert |Moved(g, move, box).dropped| ==
           |f.dropped| + (if turn.Cuts? then |f.held| else 0) + (if move.Resumes? then |g.pending| else 0);
  }

  /** Some block of the document meets one of the two overwriting guards when its turn comes. */
  predicate SomeStepLoses(rules: TextRules, target: int, blocks: seq<Block>) {
    blocks != [] &&
    var front, last := blocks[..|blocks| - 1], blocks[|blocks| - 1];
    SomeStepLoses(rules, target, front) || Loses(rules, After(rules, target, front), last)
  }

  lemma {:induction false} DropsIffSomeStepLoses(rules: TextRules, target: int, blocks: seq<Block>)
    ensures After(rules, target, blocks).dropped == [] <==> !SomeStepLoses(rules, target, blocks)
  {
    if blocks != [] {
      var front, last := blocks[..|blocks| - 1], blocks[|blocks| - 1];
      EveryBoxAccounted(rules, target, front);
      DropsIffSomeStepLoses(rules, target, front);
      StepDropsIffOverwrites(rules, target, After(rules, target, front), last);
    }
  }

  /** Every accepted box reaches a chunk, once, exactly when no block meets one of the two overwriting guards. */
  lemma NothingLostIffNoOverwrite(rules: TextRules, target: int, blocks: seq<Block>)
    ensures multiset(Boxes(Assembled(rules, target, blocks).chunks)) == multiset(AllAccepted(rules, blocks)) <==>
            !SomeStepLoses(rules, target, blocks)
  {
    AssembledAccounts(rules, target, blocks);
    EveryBoxAccounted(rules, target, blocks);
    FinishFlow(rules, After(rules, target, blocks));
    DropsIffSomeStepLoses(rules, target, blocks);
    var s := Assembled(rules, target, blocks);
    assert |multiset(Boxes(s.chunks)) + multiset(s.dropped)| == |Boxes(s.chunks)| + |s.dropped|;
    assert |multiset(Boxes(s.chunks))| == |Boxes(s.chunks)|;
  }

  // ---- When the reading order survives --------------------------------------------------------------

  /** The block makes the assembler emit something while an earlier paragraph stays in the buffer. */
  predicate Overtakes(rules: TextRules, target: int, s: State, b: Block) {
    && Accepted(rules, b).Some?
    && ((Closed(s, b.page) && s.buffer.Some?) ||
        var t, cleaned := TurnPage(rules, s, b.page), rules.clean(b.text);
        && t.buffer.Some? && !Continues(rules, t, cleaned)
        && (rules.isCaption(cleaned) || rules.isEquation(cleaned) ||
            (!rules.isHeading(cleaned) && !CanMerge(rules, t, cleaned, b.page, target) && t.pendingText != "")))
  }

  predicate SomeStepBreaks(rules: TextRules, target: int, blocks: seq<Block>) {
    blocks != [] &&
    var front, last := blocks[..|blocks| - 1], blocks[|blocks| - 1];
    var s := After(rules, target, front);
    SomeStepBreaks(rules, target, front) || Loses(rules, s, last) || Overtakes(rules, target, s, last)
  }

  /** Emitted, then buffered, then pending: the accepted boxes in their order, and none forgotten. */
  ghost predicate InOrder(f: Flow, accepted: seq<BoundingBox>) {
    f.emitted + f.held + f.pending == accepted && f.dropped == []
  }

  ghost predicate OutOfOrder(f: Flow, accepted: seq<BoundingBox>) {
    f.dropped != [] || !(f.emitted <= accepted)
  }

  lemma OvertakesFlow(rules: TextRules, target: int, s: State, b: Block)
    requires Valid(s) && Accepted(rules, b).Some?
    ensures var turn, t := TurnOf(s, b.page), TurnPage(rules, s, b.page);
            var move := MoveOf(rules, target, t, rules.clean(b.text), b.page);
            Overtakes(rules, target, s, b) <==>
            || (turn.Closes? && FlowOf(s).held != [])
            || (FlowOf(t).held != [] && (move.Alone? || (move.Replaces? && FlowOf(t).pending != [])))
  {
    TurnPageFlow(rules, s, b.page);
  }

  lemma TurnedInOrder(f: Flow, turn: Turn, accepted: seq<BoundingBox>)
    requires InOrder(f, accepted)
    requires turn.Cuts? || turn.Closes? ==> f.held == []
    ensures InOrder(Turned(f, turn), accepted)
  {
    if !turn.Stays? {
      assert f.emitted + f.held + f.pending == f.emitted + f.pending;
      assert f.emitted + f.pending + [] == f.emitted + f.pending + [] + [];
    }
  }

  lemma MovedInOrder(f: Flow, move: Move, box: BoundingBox, accepted: seq<BoundingBox>)
    requires InOrder(f, accepted)
    requires move.Resumes? ==> f.pending == []
    requires move.Alone? || (move.Replaces? && f.pending != []) ==> f.held == []
    ensures InOrder(Moved(f, move, box), accepted + [box])
  {
    var g := Moved(f, move, box);
    assert g.emitted + g.held + g.pending == f.emitted + f.held + f.pending + [box];
  }

  lemma BlockInOrder(rules: TextRules, target: int, s: State, b: Block, accepted: seq<BoundingBox>)
    requires Valid(s) && Accepted(rules, b).Some? && InOrder(FlowOf(s), accepted)
    requires !Loses(rules, s, b) && !Overtakes(rules, target, s, b)
    ensures InOrder(FlowOf(Step(rules, target, s, b)), accepted + [Accepted(rules, b).value])
  {
    var t := TurnPage(rules, s, b.page);
    LosesFlow(rules, target, s, b);
    OvertakesFlow(rules, target, s, b);
    StepFlow(rules, target, s, b);
    TurnedInOrder(FlowOf(s), TurnOf(s, b.page), accepted);
    MovedInOrder(FlowOf(t), MoveOf(rules, target, t, rules.clean(b.text), b.page), Accepted(rules, b).value, accepted);
  }

  lemma Displaced(e: seq<BoundingBox>, early: seq<BoundingBox>, late: seq<BoundingBox>, rest: seq<BoundingBox>,
                  emitted: seq<BoundingBox>)
    requires NoDuplicates(e + early + late + rest) && early != [] && late != []
    requires e + [late[0]] <= emitted
    ensures !(emitted <= e + early + late + rest)
  {
    var all := e + early + late + rest;
    assert all[|e|] == early[0] && all[|e| + |early|] == late[0];
    assert emitted[|e|] == late[0];
  }

  lemma FlowOvertakes(f: Flow, turn: Turn, move: Move, box: BoundingBox, accepted: seq<BoundingBox>)
    requires InOrder(f, accepted) && NoDuplicates(accepted + [box])
    requires turn.Closes? ==> f.pending != []
    requires turn.Cuts? ==> f.held == []
    requires var g := Turned(f, turn);
             || (turn.Closes? && f.held != [])
             || (g.held != [] && (move.Alone? || (move.Replaces? && g.pending != [])))
    ensures OutOfOrder(Moved(Turned(f, turn), move, box), accepted + [box])
  {
    var g := Turned(f, turn);
    var h := Moved(g, move, box);
    if turn.Closes? && f.held != [] {
      assert f.emitted + f.held + f.pending + [box] == accepted + [box];
      assert f.emitted + f.pending <= h.emitted;
      Displaced(f.emitted, f.held, f.pending, [box], h.emitted);
    } else {
      TurnedInOrder(f, turn, accepted);
      assert g.emitted + g.held + (g.pending + [box]) + [] == accepted + [box];
      assert g.emitted + [(g.pending + [box])[0]] <= h.emitted;
      Displaced(g.emitted, g.held, g.pending + [box], [], h.emitted);
    }
  }

  lemma BlockOvertakes(rules: TextRules, target: int, s: State, b: Block, accepted: seq<BoundingBox>)
    requires Valid(s) && Accepted(rules, b).Some? && InOrder(FlowOf(s), accepted)
    requires !Loses(rules, s, b) && Overtakes(rules, target, s, b)
    requires NoDuplicates(accepted + [Accepted(rules, b).value])
    ensures OutOfOrder(FlowOf(Step(rules, target, s, b)), accepted + [Accepted(rules, b).value])
  {
    var t := TurnPage(rules, s, b.page);
    LosesFlow(rules, target, s, b);
    OvertakesFlow(rules, target, s, b);
    StepFlow(rules, target, s, b);
    FlowOvertakes(FlowOf(s), TurnOf(s, b.page), MoveOf(rules, target, t, rules.clean(b.text), b.page),
        Accepted(rules, b).value, accepted);
  }

  lemma EmittedOnlyGrows(rules: TextRules, target: int, s: State, b: Block)
    requires Valid(s)
    ensures FlowOf(s).emitted <= FlowOf(Step(rules, target, s, b)).emitted
    ensures FlowOf(s).dropped <= FlowOf(Step(rules, target, s, b)).dropped
  {
    StepDropsIffOverwrites(rules, target, s, b);
    if Accepted(rules, b).Some? {
      StepFlow(rules, target, s, b);
      var t := TurnPage(rules, s, b.page);
      EmittedGrowsInFlow(FlowOf(s), TurnOf(s, b.page), MoveOf(rules, target, t, rules.clean(b.text), b.page),
          Accepted(rules, b).value);
    }
  }

  lemma EmittedGrowsInFlow(f: Flow, turn: Turn, move: Move, box: BoundingBox)
    ensures f.emitted <= Moved(Turned(f, turn), move, box).emitted
  {
  }

  lemma {:induction false} InOrderUntilSomeStepBreaks(rules: TextRules, target: int, blocks: seq<Block>)
    requires !SomeStepBreaks(rules, target, blocks)
    ensures InOrder(FlowOf(After(rules, target, blocks)), AllAccepted(rules, blocks))
  {
    if blocks != [] {
      var front, last := blocks[..|blocks| - 1], blocks[|blocks| - 1];
      EveryBoxAccounted(rules, target, front);
      InOrderUntilSomeStepBreaks(rules, target, front);
      if Accepted(rules, last).Some? {
        BlockInOrder(rules, target, After(rules, target, front), last, AllAccepted(rules, front));
      }
    }
  }

  /**
   For any number of pages, and whatever boxes repeat: unless some block meets an overwriting guard
   or overtakes the buffer, reading the chunks gives the accepted boxes in input order.
  */
  lemma OrderKeptUntilSomeStepBreaks(rules: TextRules, target: int, blocks: seq<Block>)
    requires !SomeStepBreaks(rules, target, blocks)
    ensures Boxes(Assembled(rules, target, blocks).chunks) == AllAccepted(rules, blocks)
    ensures Assembled(rules, target, blocks).dropped == []
  {
    InOrderUntilSomeStepBreaks(rules, target, blocks);
    EveryBoxAccounted(rules, target, blocks);
    FinishFlow(rules, After(rules, target, blocks));
  }

  /** No block leaves a paragraph in the buffer. */
  predicate NeverBuffers(rules: TextRules, target: int, blocks: seq<Block>) {
    blocks == [] ||
    (NeverBuffers(rules, target, blocks[..|blocks| - 1]) && After(rules, target, blocks).buffer.None?)
  }

  /** Overwriting and overtaking both need a paragraph that an earlier block, or this one, leaves in the buffer. */
  lemma BreakingNeedsBuffer(rules: TextRules, target: int, s: State, b: Block)
    requires s.buffer.None? && Step(rules, target, s, b).buffer.None?
    ensures !Loses(rules, s, b) && !Overtakes(rules, target, s, b)
  {
  }

  lemma {:induction false} NeverBuffersNeverBreaks(rules: TextRules, target: int, blocks: seq<Block>)
    requires NeverBuffers(rules, target, blocks)
    ensures !SomeStepBreaks(rules, target, blocks) && After(rules, target, blocks).buffer.None?
  {
    if blocks != [] {
      var front := blocks[..|blocks| - 1];
      NeverBuffersNeverBreaks(rules, target, front);
      BreakingNeedsBuffer(rules, target, After(rules, target, front), blocks[|blocks| - 1]);
    }
  }

  /** A document that leaves nothing in the buffer is assembled completely and in order. */
  lemma UnbufferedKeepsOrder(rules: TextRules, target: int, blocks: seq<Block>)
    requires NeverBuffers(rules, target, blocks)
    ensures Boxes(Assembled(rules, target, blocks).chunks) == AllAccepted(rules, blocks)
    ensures Assembled(rules, target, blocks).dropped == []
  {
    NeverBuffersNeverBreaks(rules, target, blocks);
    OrderKeptUntilSomeStepBreaks(rules, target, blocks);
  }

  lemma {:induction false} OutOfOrderIfSomeStepBreaks(rules: TextRules, target: int, blocks: seq<Block>)
    requires NoDuplicates(AllAccepted(rules, blocks)) && SomeStepBreaks(rules, target, blocks)
    ensures OutOfOrder(FlowOf(After(rules, target, blocks)), AllAccepted(rules, blocks))
  {
    var front, last := blocks[..|blocks| - 1], blocks[|blocks| - 1];
    var s, accepted := After(rules, target, front), AllAccepted(rules, front);
    EveryBoxAccounted(rules, target, front);
    FrontNoDuplicates(rules, blocks);
    EmittedOnlyGrows(rules, target, s, last);
    if SomeStepBreaks(rules, target, front) {
      OutOfOrderIfSomeStepBreaks(rules, target, front);
      StillNoPrefix(rules, target, blocks);
    } else if Loses(rules, s, last) {
      StepDropsIffOverwrites(rules, target, s, last);
    } else {
      InOrderUntilSomeStepBreaks(rules, target, front);
      BlockOvertakes(rules, target, s, last, accepted);
    }
  }

  lemma FrontNoDuplicates(rules: TextRules, blocks: seq<Block>)
    requires blocks != [] && NoDuplicates(AllAccepted(rules, blocks))
    ensures NoDuplicates(AllAccepted(rules, blocks[..|blocks| - 1]))
    ensures AllAccepted(rules, blocks[..|blocks| - 1]) <= AllAccepted(rules, blocks)
  {
    var all, part := AllAccepted(rules, blocks), AllAccepted(rules, blocks[..|blocks| - 1]);
    assert part <= all;
    assert forall i :: 0 <= i < |part| ==> part[i] == all[i];
  }

  /** Chunks once emitted out of order cannot be put right by what follows. */
  lemma StillNoPrefix(rules: TextRules, target: int, blocks: seq<Block>)
    requires blocks != []
    requires var front := blocks[..|blocks| - 1];
             OutOfOrder(FlowOf(After(rules, target, front)), AllAccepted(rules, front))
    ensures OutOfOrder(FlowOf(After(rules, target, blocks)), AllAccepted(rules, blocks))
  {
    var front, last := blocks[..|blocks| - 1], blocks[|blocks| - 1];
    var f, part, all := FlowOf(After(rules, target, front)), AllAccepted(rules, front), AllAccepted(rules, blocks);
    EveryBoxAccounted(rules, target, front);
    EmittedOnlyGrows(rules, target, After(rules, target, front), last);
    assert |Account(f)| == |f.emitted| + |f.held| + |f.pending| + |f.dropped|;
    assert |multiset(part)| == |part|;
    assert part <= all;
    if f.emitted <= all {
      ShorterPrefix(f.emitted, part, all);
    }
  }

  lemma ShorterPrefix<T>(a: seq<T>, b: seq<T>, whole: seq<T>)
    requires a <= whole && b <= whole && |a| <= |b|
    ensures a <= b
  {
    assert forall i :: 0 <= i < |a| ==> a[i] == whole[i] == b[i];
  }

  /**
   For a document whose boxes are all different, that is exact: a block that overwrites or overtakes
   leaves a box missing or out of place.
  */
  lemma OrderKeptIffNoStepBreaks(rules: TextRules, target: int, blocks: seq<Block>)
    requires NoDuplicates(AllAccepted(rules, blocks))
    ensures Boxes(Assembled(rules, target, blocks).chunks) == AllAccepted(rules, blocks) <==>
            !SomeStepBreaks(rules, target, blocks)
  {
    if SomeStepBreaks(rules, target, blocks) {
      var s, all := After(rules, target, blocks), AllAccepted(rules, blocks);
      var last := Assembled(rules, target, blocks);
      EveryBoxAccounted(rules, target, blocks);
      OutOfOrderIfSomeStepBreaks(rules, target, blocks);
      FinishFlow(rules, s);
      AssembledAccounts(rules, target, blocks);
      assert |multiset(Boxes(last.chunks)) + multiset(last.dropped)| == |Boxes(last.chunks)| + |last.dropped|;
      assert |multiset(all)| == |all|;
    } else {
      OrderKeptUntilSomeStepBreaks(rules, target, blocks);
    }
  }

  // ---- One page -------------------------------------------------------------------------------------

  predicate OnPage(s: State, page: int) {
    s.buffer.None? && (s.pendingText != "" ==> s.pendingPage == page)
  }

  lemma SamePageStep(rules: TextRules, target: int, s: State, b: Block)
    requires OnPage(s, b.page)
    ensures OnPage(Step(rules, target, s, b), b.page)
  {
    assert TurnPage(rules, s, b.page) == s;
  }

  lemma {:induction false} OnePageNeverBuffers(rules: TextRules, target: int, blocks: seq<Block>, page: int)
    requires forall i :: 0 <= i < |blocks| ==> blocks[i].page == page
    ensures OnPage(After(rules, target, blocks), page) && NeverBuffers(rules, target, blocks)
  {
    if blocks != [] {
      OnePageNeverBuffers(rules, target, blocks[..|blocks| - 1], page);
      SamePageStep(rules, target, After(rules, target, blocks[..|blocks| - 1]), blocks[|blocks| - 1]);
    }
  }

  /** A one-page document is never reordered and never loses a box. */
  lemma OnePageKeepsOrder(rules: TextRules, target: int, blocks: seq<Block>, page: int)
    requires forall i :: 0 <= i < |blocks| ==> blocks[i].page == page
    ensures Boxes(Assembled(rules, target, blocks).chunks) == AllAccepted(rules, blocks)
  {
    OnePageNeverBuffers(rules, target, blocks, page);
    UnbufferedKeepsOrder(rules, target, blocks);
  }

  lemma {:induction false} AcceptedConcat(rules: TextRules, a: seq<Block>, b: seq<Block>)
    ensures AllAccepted(rules, a + b) == AllAccepted(rules, a) + AllAccepted(rules, b)
    decreases |b|
  {
    if b == [] {
      assert a + b == a;
    } else {
      assert (a + b)[..|a + b| - 1] == a + b[..|b| - 1];
      AcceptedConcat(rules, a, b[..|b| - 1]);
    }
  }

  lemma WithoutOne<T>(s: seq<T>, i: nat)
    requires i < |s|
    ensures s == s[..i] + [s[i]] + s[i + 1..]
    ensures multiset(s[..i] + s[i + 1..]) == multiset(s) - multiset{s[i]}
  {
    assert s == s[..i] + [s[i]] + s[i + 1..];
  }

  lemma AcceptedWithoutOne(rules: TextRules, s: seq<Block>, i: nat)
    requires i < |s|
    ensures multiset(AllAccepted(rules, s)) ==
            multiset(AllAccepted(rules, s[..i] + s[i + 1..])) + multiset(AllAccepted(rules, [s[i]]))
  {
    var before, after := s[..i], s[i + 1..];
    WithoutOne(s, i);
    AcceptedConcat(rules, before + [s[i]], after);
    AcceptedConcat(rules, before, [s[i]]);
    AcceptedConcat(rules, before, after);
  }

  lemma {:induction false} AcceptedOfPermutation(rules: TextRules, a: seq<Block>, b: seq<Block>)
    requires multiset(a) == multiset(b)
    ensures multiset(AllAccepted(rules, a)) == multiset(AllAccepted(rules, b))
    decreases |a|
  {
    assert |multiset(a)| == |multiset(b)|;
    if a != [] {
      var n := |a| - 1;
      assert a[n] in multiset(b);
      var i :| 0 <= i < |b| && b[i] == a[n];
      WithoutOne(a, n);
      WithoutOne(b, i);
      AcceptedOfPermutation(rules, a[..n] + a[n + 1..], b[..i] + b[i + 1..]);
      AcceptedWithoutOne(rules, a, n);
      AcceptedWithoutOne(rules, b, i);
    }
  }

  /**
   Ordering and assembling one page together: the chunks hold each accepted box of the page once,
   and the box of each block that straddles the middle of a two-column page once more.
  */
  lemma PageExtracted(rules: TextRules, target: int, blocks: seq<Block>, pageWidth: real, page: int)
    requires forall i :: 0 <= i < |blocks| ==> blocks[i].page == page
    ensures var twice := Straddlers(blocks, LayoutOf(blocks, pageWidth, rules.words));
            var ordered := OrderPageBlocks(blocks, pageWidth, rules.words);
            multiset(Boxes(Assembled(rules, target, ordered).chunks)) ==
            multiset(AllAccepted(rules, blocks)) + multiset(AllAccepted(rules, twice))
  {
    var twice := Straddlers(blocks, LayoutOf(blocks, pageWidth, rules.words));
    var ordered := OrderPageBlocks(blocks, pageWidth, rules.words);
    OrderedIsPageAndStraddlers(blocks, pageWidth, rules.words);
    OrderedOnPage(rules, blocks, pageWidth, page);
    OnePageKeepsOrder(rules, target, ordered, page);
    AcceptedOfPermutation(rules, ordered, blocks + twice);
    AcceptedConcat(rules, blocks, twice);
  }

  lemma OrderedOnPage(rules: TextRules, blocks: seq<Block>, pageWidth: real, page: int)
    requires forall i :: 0 <= i < |blocks| ==> blocks[i].page == page
    ensures forall i :: 0 <= i < |OrderPageBlocks(blocks, pageWidth, rules.words)| ==>
              OrderPageBlocks(blocks, pageWidth, rules.words)[i].page == page
  {
    var ordered := OrderPageBlocks(blocks, pageWidth, rules.words);
    forall i | 0 <= i < |ordered|
      ensures ordered[i].page == page
    {
      EachBlockReadOnceOrTwice(blocks, pageWidth, rules.words, ordered[i]);
      assert ordered[i] in multiset(ordered);
      assert ordered[i] in multiset(blocks);
    }
  }

  /** So a page is extracted exactly if no accepted block straddles its middle. */
  lemma PageExtractedOnceIff(rules: TextRules, target: int, blocks: seq<Block>, pageWidth: real, page: int)
    requires forall i :: 0 <= i < |blocks| ==> blocks[i].page == page
    ensures var ordered := OrderPageBlocks(blocks, pageWidth, rules.words);
            multiset(Boxes(Assembled(rules, target, ordered).chunks)) == multiset(AllAccepted(rules, blocks)) <==>
            forall b :: b in blocks && Accepted(rules, b).Some? ==>
                !Straddles(b, LayoutOf(blocks, pageWidth, rules.words))
  {
    var l := LayoutOf(blocks, pageWidth, rules.words);
    PageExtracted(rules, target, blocks, pageWidth, page);
    NoneAcceptedIff(rules, Straddlers(blocks, l));
    forall b
      ensures b in Straddlers(blocks, l) <==> b in blocks && Straddles(b, l)
    {
      StraddlersCount(blocks, l, b);
    }
    NothingAdded(AllAccepted(rules, blocks), AllAccepted(rules, Straddlers(blocks, l)));
  }

  lemma {:induction false} NoneAcceptedIff(rules: TextRules, blocks: seq<Block>)
    ensures AllAccepted(rules, blocks) == [] <==> forall b :: b in blocks ==> Accepted(rules, b).None?
    decreases |blocks|
  {
    if blocks != [] {
      var front, last := blocks[..|blocks| - 1], blocks[|blocks| - 1];
      NoneAcceptedIff(rules, front);
      assert blocks == front + [last];
    }
  }

  // ---- The rules by which a block is placed ---------------------------------------------------------

  /** Body text, by all the heuristics. */
  predicate Prose(rules: TextRules, cleaned: string) {
    !rules.isCaption(cleaned) && !rules.isEquation(cleaned) && !rules.isHeading(cleaned)
  }

  /** The text ends with one of the marks that finish a paragraph. */
  predicate Finished(t: string) {
    t != "" && t[|t| - 1] in {'.', '!', '?', ':', '"', '\U{201D}', ')', ']', ';'}
  }

  /**
   Body text is put behind the pending paragraph of its page if that is a heading; if there is an
   e-mail address in it, exactly if the text is metadata as well; and else if the paragraph is cut
   at a hyphen or unfinished, or the text starts in lower case, and both together stay below the
   target length.
  */
  predicate JoinsParagraph(rules: TextRules, target: int, s: State, cleaned: string, page: int) {
    && s.pendingText != "" && page == s.pendingPage
    && (|| s.pendingIsHeading
        || (rules.hasEmail(s.pendingText) && rules.isMetadata(cleaned))
        || (&& !rules.hasEmail(s.pendingText)
            && rules.words(s.pendingText) + rules.words(cleaned) < target
            && (s.pendingText[|s.pendingText| - 1] == '-' || !Finished(s.pendingText) || rules.startsLower(cleaned))))
  }

  /** Where a block's box goes when the page does not turn: the five rules of the loop, in their order. */
  lemma BlockPlaced(rules: TextRules, target: int, s: State, b: Block)
    requires Valid(s) && Accepted(rules, b).Some? && (s.pendingText == "" || b.page <= s.pendingPage)
    ensures var f, g, box := FlowOf(s), FlowOf(Step(rules, target, s, b)), Accepted(rules, b).value;
            var cleaned := rules.clean(b.text);
            if Prose(rules, cleaned) && rules.startsLower(cleaned) && s.buffer.Some? then
              g == Flow(f.emitted, [], f.held + [box], f.dropped + f.pending)
            else if rules.isCaption(cleaned) || rules.isEquation(cleaned) then
              g == Flow(f.emitted + f.pending + [box], f.held, [], f.dropped)
            else if rules.isHeading(cleaned) && !(s.pendingIsHeading && b.page == s.pendingPage) then
              g == Flow(f.emitted + f.held + f.pending, [], [box], f.dropped)
            else if rules.isHeading(cleaned) || JoinsParagraph(rules, target, s, cleaned, b.page) then
              g == Flow(f.emitted, f.held, f.pending + [box], f.dropped)
            else g == Flow(f.emitted + f.pending, f.held, [box], f.dropped)
  {
    StepFlow(rules, target, s, b);
    assert TurnPage(rules, s, b.page) == s && TurnOf(s, b.page) == Stays;
    MergeRule(rules, target, s, rules.clean(b.text), b.page);
  }

  lemma MergeRule(rules: TextRules, target: int, s: State, cleaned: string, page: int)
    ensures CanMerge(rules, s, cleaned, page, target) <==> JoinsParagraph(rules, target, s, cleaned, page)
  {
  }

  /** When the page turns on a pending paragraph, a finished one is emitted and an unfinished one buffered first. */
  lemma PageTurned(rules: TextRules, target: int, s: State, b: Block)
    requires Valid(s) && Accepted(rules, b).Some? && s.pendingText != "" && b.page > s.pendingPage
    ensures var t := TurnPage(rules, s, b.page);
            && Valid(t) && t.pendingText == "" && Step(rules, target, s, b) == Step(rules, target, t, b)
            && FlowOf(t) == if Finished(s.pendingText)
                            then Flow(FlowOf(s).emitted + s.pendingBoxes, FlowOf(s).held, [], s.dropped)
                            else Flow(FlowOf(s).emitted, s.pendingBoxes, [], s.dropped + FlowOf(s).held)
  {
    TurnPageFlow(rules, s, b.page);
    assert TurnPage(rules, TurnPage(rules, s, b.page), b.page) == TurnPage(rules, s, b.page);
  }

  /**
   When what is pending counts as a heading: after a heading, until body text joins it, or until it is
   emitted. Moving it to the buffer and taking it back leave the flag as it is.
  */
  lemma HeadingFlag(rules: TextRules, target: int, s: State, b: Block)
    requires Valid(s) && Accepted(rules, b).Some?
    ensures var t, u := TurnPage(rules, s, b.page), Step(rules, target, s, b);
            var cleaned := rules.clean(b.text);
            && t.pendingIsHeading == (s.pendingIsHeading &&
                                      !(s.pendingText != "" && b.page > s.pendingPage && Finished(s.pendingText)))
            && u.pendingIsHeading ==
               if t.buffer.Some? && Prose(rules, cleaned) && rules.startsLower(cleaned) then t.pendingIsHeading
               else if rules.isCaption(cleaned) || rules.isEquation(cleaned) then t.pendingIsHeading
                   && t.pendingText == ""
               else rules.isHeading(cleaned) || (t.pendingIsHeading && t.pendingText == "")
  {
  }

  /** A word cut by a hyphen is rejoined; else a blank separates. */
  lemma StitchRejoins(t: string, cleaned: string)
    ensures Stitch(t + "-", cleaned) == t + cleaned
    ensures t != "" && t[|t| - 1] != '-' ==> Stitch(t, cleaned) == t + " " + cleaned
  {
    assert (t + "-")[..|t|] == t;
  }

  /** A ratio cut to the unit interval. */
  function Unit(r: real): real { if r < 0.0 then 0.0 else if r > 1.0 then 1.0 else r }

  /**
   A block is skipped exactly if nothing is left of its text or of its area; else its box is the
   block's, in units of the page.
   */
  lemma AcceptedIff(rules: TextRules, b: Block)
    ensures var left, top := Unit(rules.ratio(b.x0, b.width)), Unit(rules.ratio(b.y0, b.height));
            var right, bottom := Unit(rules.ratio(b.x1, b.width)), Unit(rules.ratio(b.y1, b.height));
            && (Accepted(rules, b).Some? <==> rules.clean(b.text) != "" && left < right && top < bottom)
            && (Accepted(rules, b).Some? ==> Accepted(rules, b).value == BoundingBox(left, top, right, bottom, b.page))
  {
  }

  // ---- Documents that lose a paragraph --------------------------------------------------------------

  /** A first paragraph ends without a full stop at the foot of its page, and is pending. */
  lemma FirstPends(rules: TextRules, target: int, a: Block)
    requires Accepted(rules, a).Some? && Prose(rules, rules.clean(a.text))
    ensures After(rules, target, [a]) ==
            State([], rules.clean(a.text), [Accepted(rules, a).value], a.page, false, 0, None, [])
  {
    assert [a][..0] == [];
  }

  lemma SecondPends(rules: TextRules, target: int, s: State, b: Block, text: string, x: BoundingBox)
    requires text != "" && !EndsSentence(text) && s == State([], text, [x], s.pendingPage, false, 0, None, [])
    requires Accepted(rules, b).Some? && Prose(rules, rules.clean(b.text)) && !rules.startsLower(rules.clean(b.text))
    requires b.page > s.pendingPage
    ensures Step(rules, target, s, b) ==
            State([], rules.clean(b.text), [Accepted(rules, b).value], b.page, false, 0,
                Some(Held(text, [x], s.pendingPage)), [])
  {
    assert s.dropped + BoxesHeld(s) == [];
  }

  lemma ThirdResumes(rules: TextRules, target: int, s: State, c: Block, y: BoundingBox)
    requires s.buffer.Some? && s.chunks == [] && s.pendingBoxes == [y] && s.dropped == []
    requires Accepted(rules, c).Some? && Prose(rules, rules.clean(c.text)) && rules.startsLower(rules.clean(c.text))
    requires c.page == s.pendingPage
    ensures var t := Step(rules, target, s, c);
            && t.chunks == [] && t.buffer.None? && t.dropped == [y]
            && t.pendingBoxes == s.buffer.value.boxes + [Accepted(rules, c).value]
  {
    assert s.dropped + s.pendingBoxes == [y];
  }

  /**
   A paragraph is cut by the end of its page; the next page opens with a block that does not start in
   lower case and goes on with one that does, and all three are body text.
  */
  predicate CutThenResumed(rules: TextRules, a: Block, b: Block, c: Block) {
    && Accepted(rules, a).Some? && Accepted(rules, b).Some? && Accepted(rules, c).Some?
    && Prose(rules, rules.clean(a.text)) && Prose(rules, rules.clean(b.text)) && Prose(rules, rules.clean(c.text))
    && !EndsSentence(rules.clean(a.text))
    && !rules.startsLower(rules.clean(b.text)) && rules.startsLower(rules.clean(c.text))
    && a.page < b.page == c.page
  }

  lemma LostRun(rules: TextRules, target: int, a: Block, b: Block, c: Block)
    requires CutThenResumed(rules, a, b, c)
    ensures var t := After(rules, target, [a, b, c]);
            && t.chunks == [] && t.buffer.None? && t.dropped == [Accepted(rules, b).value]
            && t.pendingBoxes == [Accepted(rules, a).value, Accepted(rules, c).value]
  {
    FirstPends(rules, target, a);
    assert [a, b][..1] == [a] && [a, b, c][..2] == [a, b];
    var one := After(rules, target, [a]);
    SecondPends(rules, target, one, b, rules.clean(a.text), Accepted(rules, a).value);
    ThirdResumes(rules, target, Step(rules, target, one, b), c, Accepted(rules, b).value);
  }

  lemma LostAccepted(rules: TextRules, a: Block, b: Block, c: Block)
    requires Accepted(rules, a).Some? && Accepted(rules, b).Some? && Accepted(rules, c).Some?
    ensures AllAccepted(rules, [a, b, c]) ==
            [Accepted(rules, a).value, Accepted(rules, b).value, Accepted(rules, c).value]
  {
    assert [a, b, c][..2] == [a, b] && [a, b][..1] == [a] && [a][..0] == [];
    assert AllAccepted(rules, [a]) == [Accepted(rules, a).value];
    assert AllAccepted(rules, [a, b]) == AllAccepted(rules, [a]) + [Accepted(rules, b).value];
  }

  /**
   Whatever the heuristics and the texts: the second block waits as pending text, the third continues
   the first, and the second is in no chunk.
  */
  lemma ParagraphLost(rules: TextRules, target: int, a: Block, b: Block, c: Block)
    requires CutThenResumed(rules, a, b, c)
    ensures var x, y, z := Accepted(rules, a).value, Accepted(rules, b).value, Accepted(rules, c).value;
            && AllAccepted(rules, [a, b, c]) == [x, y, z]
            && Boxes(Assembled(rules, target, [a, b, c]).chunks) == [x, z]
            && Assembled(rules, target, [a, b, c]).dropped == [y]
  {
    LostAccepted(rules, a, b, c);
    LostRun(rules, target, a, b, c);
    EveryBoxAccounted(rules, target, [a, b, c]);
    FinishFlow(rules, After(rules, target, [a, b, c]));
  }
}
