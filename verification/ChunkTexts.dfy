/**
 What the chunks say: each chunk's text is spelled by the texts of exactly the blocks whose boxes it
 carries, in the order of the input.
*/
module ChunkTexts {
  import opened Wrappers
  import opened PageOrder
  import opened ChunkAssembly

  /** A block at its place in the input. */
  datatype Piece = Piece(at: nat, block: Block)

  /** How a block's text is put behind the text before it: as a new paragraph, a continuation, or a further heading. */
  datatype Join = Opens | Stitches | Dashes

  datatype Word = Word(piece: Piece, join: Join)

  function Pieces(ws: seq<Word>): (r: seq<Piece>)
    ensures |r| == |ws| && forall i :: 0 <= i < |r| ==> r[i] == ws[i].piece
  {
    seq(|ws|, i requires 0 <= i < |ws| => ws[i].piece)
  }

  function Flat(strands: seq<seq<Word>>): seq<Word> {
    if strands == [] then [] else Flat(strands[..|strands| - 1]) + strands[|strands| - 1]
  }

  /** The accepted blocks of the input, each at its place. */
  function AcceptedPieces(rules: TextRules, blocks: seq<Block>): seq<Piece> {
    if blocks == [] then []
    else
      var last := |blocks| - 1;
      AcceptedPieces(rules, blocks[..last]) +
      if Accepted(rules, blocks[last]).Some? then [Piece(last, blocks[last])] else []
  }

  function Spelled(rules: TextRules, ws: seq<Word>): string {
    if ws == [] then ""
    else
      var before, cleaned := Spelled(rules, ws[..|ws| - 1]), rules.clean(ws[|ws| - 1].piece.block.text);
      match ws[|ws| - 1].join
      case Opens => cleaned
      case Stitches => Stitch(before, cleaned)
      case Dashes => before + " - " + cleaned
  }

  function TextOf(rules: TextRules, w: Word): string { rules.clean(w.piece.block.text) }

  /**
   A later word of a paragraph: a heading is dashed on, other text stitched; it is of the page of
   the first, or starts in lower case.
   */
  predicate JoinsOn(rules: TextRules, first: Word, w: Word) {
    && w.join == (if rules.isHeading(TextOf(rules, w)) then Dashes else Stitches)
    && (w.piece.block.page == first.piece.block.page || rules.startsLower(TextOf(rules, w)))
  }

  /** The words' blocks have these boxes and stand in input order before place n, and each joins on the first. */
  ghost predicate Carries(rules: TextRules, n: nat, ws: seq<Word>, boxes: seq<BoundingBox>) {
    && |boxes| == |ws|
    && (forall i :: 0 <= i < |ws| ==> Accepted(rules, ws[i].piece.block) == Some(boxes[i]) && ws[i].piece.at < n)
    && (forall i, j :: 0 <= i < j < |ws| ==> ws[i].piece.at < ws[j].piece.at)
    && (forall i :: 0 < i < |ws| ==> JoinsOn(rules, ws[0], ws[i]))
  }

  /** None of the words is a caption or an equation. */
  ghost predicate Running(rules: TextRules, ws: seq<Word>) {
    forall i :: 0 <= i < |ws| ==> !rules.isCaption(TextOf(rules, ws[i])) && !rules.isEquation(TextOf(rules, ws[i]))
  }

  ghost predicate Tells(rules: TextRules, n: nat, ws: seq<Word>, text: string, boxes: seq<BoundingBox>, page: int) {
    && ws != [] && Carries(rules, n, ws, boxes) && Running(rules, ws)
    && text == Spelled(rules, ws) && page == ws[0].piece.block.page
  }

  /** A caption or an equation stands alone, the equation in its LaTeX form if it has one. */
  predicate TellsAlone(rules: TextRules, c: Chunk, w: Word) {
    var cleaned := TextOf(rules, w);
    && (rules.isCaption(cleaned) || rules.isEquation(cleaned))
    && c.formula == (if rules.isEquation(cleaned) then Some(rules.latex(cleaned)) else None)
    && c.content == (if c.formula.Some? && c.formula.value != "" then c.formula.value else cleaned)
    && c.tokens == if rules.words(cleaned) > 1 then rules.words(cleaned) else 1
  }

  /** The chunk has the boxes and the page of the words, and their text and its number of words, at least one. */
  ghost predicate TellsChunk(rules: TextRules, n: nat, c: Chunk, ws: seq<Word>) {
    && ws != [] && Carries(rules, n, ws, c.boxes) && c.page == ws[0].piece.block.page
    && ((|ws| == 1 && TellsAlone(rules, c, ws[0])) ||
        (&& Running(rules, ws) && c.formula.None? && c.content == rules.tidy(Spelled(rules, ws))
         && c.tokens == if rules.words(c.content) > 1 then rules.words(c.content) else 1))
  }

  // ---- Following the assembler ----------------------------------------------------------------------

  /** The words of every chunk, of the pending and of the buffered paragraph, and those forgotten. */
  datatype Trace = Trace(chunks: seq<seq<Word>>, pending: seq<Word>, held: seq<Word>, dropped: seq<Word>)

  ghost function AllPieces(t: Trace): multiset<Piece> {
    multiset(Pieces(Flat(t.chunks))) + multiset(Pieces(t.pending)) + multiset(Pieces(t.held)) +
        multiset(Pieces(t.dropped))
  }

  ghost predicate Boxed(rules: TextRules, ws: seq<Word>, boxes: seq<BoundingBox>) {
    |boxes| == |ws| && forall i :: 0 <= i < |ws| ==> Accepted(rules, ws[i].piece.block) == Some(boxes[i])
  }

  ghost predicate ChunksTold(rules: TextRules, n: nat, chunks: seq<Chunk>, told: seq<seq<Word>>) {
    |told| == |chunks| && forall i :: 0 <= i < |chunks| ==> TellsChunk(rules, n, chunks[i], told[i])
  }

  ghost predicate PendingTold(rules: TextRules, n: nat, text: string, boxes: seq<BoundingBox>, page: int,
      ws: seq<Word>)
  {
    if text == "" then ws == [] else Tells(rules, n, ws, text, boxes, page)
  }

  ghost predicate HeldTold(rules: TextRules, n: nat, buffer: Option<Held>, ws: seq<Word>) {
    if buffer.None? then ws == [] else Tells(rules, n, ws, buffer.value.text, buffer.value.boxes, buffer.value.page)
  }

  ghost predicate Follows(rules: TextRules, n: nat, s: State, t: Trace) {
    && ChunksTold(rules, n, s.chunks, t.chunks)
    && PendingTold(rules, n, s.pendingText, s.pendingBoxes, s.pendingPage, t.pending)
    && HeldTold(rules, n, s.buffer, t.held)
    && Boxed(rules, t.dropped, s.dropped)
  }

  lemma PiecesConcat(a: seq<Word>, b: seq<Word>)
    ensures Pieces(a + b) == Pieces(a) + Pieces(b)
  {
  }

  lemma OneMoreStrand(strands: seq<seq<Word>>, ws: seq<Word>)
    ensures Pieces(Flat(strands + [ws])) == Pieces(Flat(strands)) + Pieces(ws)
  {
    assert (strands + [ws])[..|strands|] == strands;
    PiecesConcat(Flat(strands), ws);
  }

  lemma FlushPendingFollows(rules: TextRules, n: nat, s: State, t: Trace) returns (u: Trace)
    requires Follows(rules, n, s, t)
    ensures Follows(rules, n, FlushPending(rules, s), u) && AllPieces(u) == AllPieces(t)
    ensures u.pending == [] && u.held == t.held
  {
    u := t;
    if s.pendingText != "" {
      u := t.(chunks := t.chunks + [t.pending], pending := []);
      OneMoreStrand(t.chunks, t.pending);
      assert Pieces([]) == [];
    }
  }

  lemma FlushCrossPageFollows(rules: TextRules, n: nat, s: State, t: Trace) returns (u: Trace)
    requires Follows(rules, n, s, t)
    ensures Follows(rules, n, FlushCrossPage(rules, s), u) && AllPieces(u) == AllPieces(t)
    ensures u.held == []
  {
    u := t;
    if s.buffer.Some? {
      u := t.(chunks := t.chunks + [t.held], held := []);
      OneMoreStrand(t.chunks, t.held);
      assert Pieces([]) == [];
    }
  }

  lemma TurnPageFollows(rules: TextRules, n: nat, s: State, t: Trace, page: int) returns (u: Trace)
    requires Follows(rules, n, s, t)
    ensures Follows(rules, n, TurnPage(rules, s, page), u) && AllPieces(u) == AllPieces(t)
  {
    u := t;
    if Cut(s, page) {
      u := Trace(t.chunks, [], t.pending, t.dropped + t.held);
      PiecesConcat(t.dropped, t.held);
      assert Pieces([]) == [];
    } else if Closed(s, page) {
      u := FlushPendingFollows(rules, n, s, t);
    }
  }

  /** A later block's text is put behind a paragraph. */
  lemma OneMoreWord(rules: TextRules, n: nat, ws: seq<Word>, text: string, boxes: seq<BoundingBox>, page: int, w: Word,
                    box: BoundingBox)
    requires Tells(rules, n, ws, text, boxes, page)
    requires w.piece.at == n && Accepted(rules, w.piece.block) == Some(box) && w.join != Opens
    requires JoinsOn(rules, ws[0], w) && Running(rules, [w])
    ensures var cleaned := rules.clean(w.piece.block.text);
            Tells(rules, n + 1, ws + [w], if w.join == Stitches then Stitch(text, cleaned) else text + " - " + cleaned,
                  boxes + [box], page)
    ensures multiset(Pieces(ws + [w])) == multiset(Pieces(ws)) + multiset{w.piece}
  {
    assert (ws + [w])[..|ws|] == ws;
    assert Running(rules, ws + [w]) by {
      assert [w][0] == w;
    }
    PiecesConcat(ws, [w]);
    assert Pieces([w]) == [w.piece];
  }

  /** A block's text starts a paragraph. */
  lemma FirstWord(rules: TextRules, n: nat, w: Word, box: BoundingBox)
    requires w.piece.at == n && Accepted(rules, w.piece.block) == Some(box) && Running(rules, [w])
    ensures var cleaned := rules.clean(w.piece.block.text);
            Tells(rules, n + 1, [w], if w.join == Opens then cleaned
                                     else if w.join == Stitches then Stitch("", cleaned) else "" + " - " + cleaned,
                  [box], w.piece.block.page)
    ensures multiset(Pieces([w])) == multiset{w.piece}
  {
    assert [w][..0] == [] && Spelled(rules, []) == "";
    assert Pieces([w]) == [w.piece];
  }

  lemma LaterStillFollows(rules: TextRules, n: nat, s: State, t: Trace)
    requires Follows(rules, n, s, t)
    ensures Follows(rules, n + 1, s, t)
  {
    forall i | 0 <= i < |s.chunks|
      ensures TellsChunk(rules, n + 1, s.chunks[i], t.chunks[i])
    {
      assert TellsChunk(rules, n, s.chunks[i], t.chunks[i]);
    }
  }

  lemma ResumeFollows(rules: TextRules, n: nat, s: State, t: Trace, b: Block) returns (u: Trace)
    requires Follows(rules, n, s, t) && Accepted(rules, b).Some? && Valid(s)
    requires Continues(rules, s, rules.clean(b.text))
    ensures Follows(rules, n + 1, Resume(s, rules.clean(b.text), Accepted(rules, b).value), u)
    ensures AllPieces(u) == AllPieces(t) + multiset{Piece(n, b)}
  {
    var w, held := Word(Piece(n, b), Stitches), s.buffer.value;
    assert Running(rules, [w]);
    u := Trace(t.chunks, t.held + [w], [], t.dropped + t.pending);
    OneMoreWord(rules, n, t.held, held.text, held.boxes, held.page, w, Accepted(rules, b).value);
    LaterStillFollows(rules, n, s, t);
    DroppedBoxed(rules, n, s, t);
    PiecesConcat(t.dropped, t.pending);
    assert Pieces([]) == [];
    StitchNotEmpty(held.text, rules.clean(b.text));
  }

  lemma StitchNotEmpty(t: string, cleaned: string)
    requires cleaned != ""
    ensures Stitch(t, cleaned) != ""
  {
  }

  lemma DroppedBoxed(rules: TextRules, n: nat, s: State, t: Trace)
    requires Follows(rules, n, s, t) && Valid(s)
    ensures Boxed(rules, t.dropped + t.pending, s.dropped + s.pendingBoxes)
  {
  }

  lemma OneMoreTold(rules: TextRules, n: nat, chunks: seq<Chunk>, told: seq<seq<Word>>, c: Chunk, ws: seq<Word>)
    requires ChunksTold(rules, n, chunks, told) && TellsChunk(rules, n, c, ws)
    ensures ChunksTold(rules, n, chunks + [c], told + [ws])
  {
  }

  lemma AloneTold(rules: TextRules, n: nat, s: State, b: Block)
    requires Accepted(rules, b).Some?
    requires rules.isCaption(rules.clean(b.text)) || rules.isEquation(rules.clean(b.text))
    ensures var flushed := FlushPending(rules, s);
            var alone := EmitAlone(rules, s, rules.clean(b.text), Accepted(rules, b).value, b.page);
            && |alone.chunks| == |flushed.chunks| + 1
            && alone.chunks == flushed.chunks + [alone.chunks[|flushed.chunks|]]
            && alone == flushed.(chunks := alone.chunks, counter := alone.counter)
            && TellsChunk(rules, n + 1, alone.chunks[|flushed.chunks|], [Word(Piece(n, b), Opens)])
  {
  }

  lemma EmitAloneFollows(rules: TextRules, n: nat, s: State, t: Trace, b: Block) returns (u: Trace)
    requires Follows(rules, n, s, t) && Accepted(rules, b).Some?
    requires rules.isCaption(rules.clean(b.text)) || rules.isEquation(rules.clean(b.text))
    ensures Follows(rules, n + 1, EmitAlone(rules, s, rules.clean(b.text), Accepted(rules, b).value, b.page), u)
    ensures AllPieces(u) == AllPieces(t) + multiset{Piece(n, b)}
  {
    var w := Word(Piece(n, b), Opens);
    var flushed := FlushPending(rules, s);
    var alone := EmitAlone(rules, s, rules.clean(b.text), Accepted(rules, b).value, b.page);
    var v := FlushPendingFollows(rules, n, s, t);
    u := v.(chunks := v.chunks + [[w]]);
    LaterStillFollows(rules, n, flushed, v);
    AloneTold(rules, n, s, b);
    OneMoreTold(rules, n + 1, flushed.chunks, v.chunks, alone.chunks[|flushed.chunks|], [w]);
    AlonePieces(v, w);
  }

  lemma AlonePieces(t: Trace, w: Word)
    ensures AllPieces(t.(chunks := t.chunks + [[w]])) == AllPieces(t) + multiset{w.piece}
  {
    OneMoreStrand(t.chunks, [w]);
    assert Pieces([w]) == [w.piece];
  }

  predicate IsHeadingText(rules: TextRules, cleaned: string) {
    rules.isHeading(cleaned) && !rules.isCaption(cleaned) && !rules.isEquation(cleaned)
  }

  lemma JoinHeadingFollows(rules: TextRules, n: nat, s: State, t: Trace, b: Block) returns (u: Trace)
    requires Follows(rules, n, s, t) && Accepted(rules, b).Some? && Valid(s) && b.page == s.pendingPage
    requires IsHeadingText(rules, rules.clean(b.text))
    ensures Follows(rules, n + 1,
                    s.(pendingText := s.pendingText + " - " + rules.clean(b.text),
                       pendingBoxes := s.pendingBoxes + [Accepted(rules, b).value]), u)
    ensures AllPieces(u) == AllPieces(t) + multiset{Piece(n, b)}
  {
    var w := Word(Piece(n, b), Dashes);
    u := t.(pending := t.pending + [w]);
    LaterStillFollows(rules, n, s, t);
    DashedTold(rules, n, s.pendingText, s.pendingBoxes, s.pendingPage, t.pending, w, Accepted(rules, b).value);
  }

  /** A further heading is put behind what is pending, even if that is nothing. */
  lemma DashedTold(rules: TextRules, n: nat, text: string, boxes: seq<BoundingBox>, page: int, ws: seq<Word>, w: Word,
                   box: BoundingBox)
    requires PendingTold(rules, n, text, boxes, page, ws) && (text == "" ==> boxes == [])
    requires w.piece.at == n && Accepted(rules, w.piece.block) == Some(box) && w.join == Dashes
        && w.piece.block.page == page
    requires IsHeadingText(rules, rules.clean(w.piece.block.text))
    ensures PendingTold(rules, n + 1, text + " - " + rules.clean(w.piece.block.text), boxes + [box], page, ws + [w])
    ensures multiset(Pieces(ws + [w])) == multiset(Pieces(ws)) + multiset{w.piece}
  {
    assert Running(rules, [w]);
    if text == "" {
      assert ws + [w] == [w] && boxes + [box] == [box];
      assert Pieces(ws) == [];
      FirstWord(rules, n, w, box);
    } else {
      assert JoinsOn(rules, ws[0], w);
      OneMoreWord(rules, n, ws, text, boxes, page, w, box);
    }
  }

  lemma TakeHeadingFollows(rules: TextRules, n: nat, s: State, t: Trace, b: Block) returns (u: Trace)
    requires Follows(rules, n, s, t) && Accepted(rules, b).Some? && Valid(s)
    requires IsHeadingText(rules, rules.clean(b.text))
    ensures Follows(rules, n + 1, TakeHeading(rules, s, rules.clean(b.text), Accepted(rules, b).value, b.page), u)
    ensures AllPieces(u) == AllPieces(t) + multiset{Piece(n, b)}
  {
    if s.pendingIsHeading && b.page == s.pendingPage {
      u := JoinHeadingFollows(rules, n, s, t, b);
    } else {
      var crossed := FlushCrossPage(rules, s);
      var v := FlushCrossPageFollows(rules, n, s, t);
      var flushed := FlushPendingFollows(rules, n, crossed, v);
      u := OpensFollows(rules, n, FlushPending(rules, crossed), flushed, b);
    }
  }

  /** With nothing pending, a block opens a paragraph. */
  lemma OpensFollows(rules: TextRules, n: nat, s: State, t: Trace, b: Block) returns (u: Trace)
    requires Follows(rules, n, s, t) && Accepted(rules, b).Some? && t.pending == []
    requires !rules.isCaption(rules.clean(b.text)) && !rules.isEquation(rules.clean(b.text))
    ensures forall heading ::
              Follows(rules, n + 1,
                      s.(pendingText := rules.clean(b.text), pendingBoxes := [Accepted(rules, b).value],
                         pendingPage := b.page, pendingIsHeading := heading), u)
    ensures AllPieces(u) == AllPieces(t) + multiset{Piece(n, b)}
  {
    var w := Word(Piece(n, b), Opens);
    u := t.(pending := [w]);
    FirstWord(rules, n, w, Accepted(rules, b).value);
    LaterStillFollows(rules, n, s, t);
    assert Pieces([]) == [];
  }

  lemma TakeProseFollows(rules: TextRules, target: int, n: nat, s: State, t: Trace, b: Block) returns (u: Trace)
    requires Follows(rules, n, s, t) && Accepted(rules, b).Some? && Prose(rules, rules.clean(b.text))
    ensures Follows(rules, n + 1, TakeProse(rules, s, rules.clean(b.text), Accepted(rules, b).value, b.page, target), u)
    ensures AllPieces(u) == AllPieces(t) + multiset{Piece(n, b)}
  {
    var cleaned, box := rules.clean(b.text), Accepted(rules, b).value;
    if CanMerge(rules, s, cleaned, b.page, target) {
      var w := Word(Piece(n, b), Stitches);
      u := t.(pending := t.pending + [w]);
      OneMoreWord(rules, n, t.pending, s.pendingText, s.pendingBoxes, s.pendingPage, w, box);
      LaterStillFollows(rules, n, s, t);
      StitchNotEmpty(s.pendingText, cleaned);
    } else {
      var v := FlushPendingFollows(rules, n, s, t);
      var flushed := FlushPending(rules, s);
      u := OpensFollows(rules, n, flushed, v, b);
      assert flushed.(pendingText := cleaned, pendingBoxes := [box], pendingPage := b.page) ==
             flushed.(pendingText := cleaned, pendingBoxes := [box], pendingPage := b.page,
                      pendingIsHeading := flushed.pendingIsHeading);
    }
  }

  lemma StepFollows(rules: TextRules, target: int, n: nat, s: State, t: Trace, b: Block) returns (u: Trace)
    requires Valid(s) && Follows(rules, n, s, t)
    ensures Follows(rules, n + 1, Step(rules, target, s, b), u)
    ensures AllPieces(u) ==
            AllPieces(t) + if Accepted(rules, b).Some? then multiset{Piece(n, b)} else multiset{}
  {
    if Accepted(rules, b).None? {
      u := t;
      LaterStillFollows(rules, n, s, t);
    } else {
      var turned, cleaned := TurnPage(rules, s, b.page), rules.clean(b.text);
      var v := TurnPageFollows(rules, n, s, t, b.page);
      TurnPageFlow(rules, s, b.page);
      if Continues(rules, turned, cleaned) {
        u := ResumeFollows(rules, n, turned, v, b);
      } else if rules.isCaption(cleaned) || rules.isEquation(cleaned) {
        u := EmitAloneFollows(rules, n, turned, v, b);
      } else if rules.isHeading(cleaned) {
        u := TakeHeadingFollows(rules, n, turned, v, b);
      } else {
        u := TakeProseFollows(rules, target, n, turned, v, b);
      }
    }
  }

  lemma LastPiece(rules: TextRules, blocks: seq<Block>)
    requires blocks != []
    ensures var front, last := blocks[..|blocks| - 1], blocks[|blocks| - 1];
            multiset(AcceptedPieces(rules, blocks)) ==
            multiset(AcceptedPieces(rules, front)) +
            if Accepted(rules, last).Some? then multiset{Piece(|front|, last)} else multiset{}
  {
  }

  lemma {:induction false} RunFollows(rules: TextRules, target: int, blocks: seq<Block>) returns (t: Trace)
    ensures Follows(rules, |blocks|, After(rules, target, blocks), t)
    ensures AllPieces(t) == multiset(AcceptedPieces(rules, blocks))
    decreases |blocks|
  {
    if blocks == [] {
      t := Trace([], [], [], []);
      assert Pieces([]) == [];
    } else {
      var front := blocks[..|blocks| - 1];
      EveryBoxAccounted(rules, target, front);
      var before := RunFollows(rules, target, front);
      t := LastStepFollows(rules, target, blocks, before);
    }
  }

  lemma LastStepFollows(rules: TextRules, target: int, blocks: seq<Block>, before: Trace) returns (t: Trace)
    requires blocks != []
    requires var front := blocks[..|blocks| - 1];
             && Valid(After(rules, target, front)) && Follows(rules, |front|, After(rules, target, front), before)
             && AllPieces(before) == multiset(AcceptedPieces(rules, front))
    ensures Follows(rules, |blocks|, After(rules, target, blocks), t)
    ensures AllPieces(t) == multiset(AcceptedPieces(rules, blocks))
  {
    var front, last := blocks[..|blocks| - 1], blocks[|blocks| - 1];
    LastPiece(rules, blocks);
    LastStep(rules, target, blocks);
    t := StepFollows(rules, target, |front|, After(rules, target, front), before, last);
  }

  lemma LastStep(rules: TextRules, target: int, blocks: seq<Block>)
    requires blocks != []
    ensures After(rules, target, blocks) ==
            Step(rules, target, After(rules, target, blocks[..|blocks| - 1]), blocks[|blocks| - 1])
  {
  }

  /**
   Every chunk is told by words of its own: accepted blocks in input order whose boxes it carries and
   whose texts, stitched together, are its text. With the blocks lost they are all accepted blocks of
   the input, each once.
  */
  lemma ChunksTellTheirBlocks(rules: TextRules, target: int, blocks: seq<Block>)
    returns (told: seq<seq<Word>>, lost: seq<Word>)
    ensures var s := Assembled(rules, target, blocks);
            && |told| == |s.chunks|
            && (forall i :: 0 <= i < |told| ==> TellsChunk(rules, |blocks|, s.chunks[i], told[i]))
            && Boxed(rules, lost, s.dropped)
    ensures multiset(Pieces(Flat(told))) + multiset(Pieces(lost)) == multiset(AcceptedPieces(rules, blocks))
  {
    var n, s := |blocks|, After(rules, target, blocks);
    var t := RunFollows(rules, target, blocks);
    var crossed := FlushCrossPageFollows(rules, n, s, t);
    var finished := FlushPendingFollows(rules, n, FlushCrossPage(rules, s), crossed);
    told, lost := finished.chunks, finished.dropped;
    assert Pieces([]) == [];
  }
}
