/** The loop that turns ordered blocks into chunks, with its variables shared by the local flush routines. */
module ChunkAssembler {
  import opened Wrappers
  import opened PageOrder
  import opened ChunkAssembly

  class Assembler {
    const rules: TextRules
    const target: int
    var chunks: seq<Chunk>
    var pendingText: string
    var pendingBoxes: seq<BoundingBox>
    var pendingPage: int
    var pendingIsHeading: bool
    var counter: int
    var crossPageBuffer: Option<Held>
    ghost var dropped: seq<BoundingBox>

    ghost function Now(): State
      reads this
    {
      State(chunks, pendingText, pendingBoxes, pendingPage, pendingIsHeading, counter, crossPageBuffer, dropped)
    }

    /** Where the accepted boxes are. */
    ghost function Places(): Flow
      reads this
    {
      FlowOf(Now())
    }

    constructor (rules: TextRules, target: int)
      ensures Now() == START && this.rules == rules && this.target == target
    {
      this.rules := rules;
      this.target := target;
      chunks, pendingText, pendingBoxes, pendingPage, pendingIsHeading := [], "", [], 1, false;
      counter, crossPageBuffer, dropped := 0, None, [];
    }

    method FlushPending()
      requires Valid(Now())
      modifies this
      ensures Now() == ChunkAssembly.FlushPending(rules, old(Now()))
      ensures Valid(Now())
      ensures Places() == var f := old(Places()); Flow(f.emitted + f.pending, f.held, [], f.dropped)
    {
      FlushPendingFlow(rules, Now());
      if pendingText == "" {
        return;
      }
      var content := rules.tidy(pendingText);
      chunks := chunks + [Chunk(counter, pendingPage, content, None, pendingBoxes, Tokens(rules.words(content)))];
      counter := counter + 1;
      pendingText := "";
      pendingBoxes := [];
      pendingIsHeading := false;
    }

    method FlushCrossPage()
      requires Valid(Now())
      modifies this
      ensures Now() == ChunkAssembly.FlushCrossPage(rules, old(Now()))
      ensures Valid(Now())
      ensures Places() == var f := old(Places()); Flow(f.emitted + f.held, [], f.pending, f.dropped)
    {
      FlushCrossPageFlow(rules, Now());
      if crossPageBuffer.None? {
        return;
      }
      var held := crossPageBuffer.value;
      var content := rules.tidy(held.text);
      chunks := chunks + [Chunk(counter, held.page, content, None, held.boxes, Tokens(rules.words(content)))];
      counter := counter + 1;
      crossPageBuffer := None;
    }

    method TurnPage(page: int)
      requires Valid(Now())
      modifies this
      ensures Now() == ChunkAssembly.TurnPage(rules, old(Now()), page)
      ensures Valid(Now())
      ensures Places() == Turned(old(Places()), TurnOf(old(Now()), page))
    {
      TurnPageFlow(rules, Now(), page);
      if page > pendingPage && pendingText != "" {
        if !EndsSentence(pendingText) {
          dropped := dropped + BoxesHeld(Now());
          crossPageBuffer := Some(Held(pendingText, pendingBoxes, pendingPage));
          pendingText := "";
          pendingBoxes := [];
        } else {
          FlushPending();
        }
      }
    }

    /** The branches of the loop body after the page turn. */
    method TakeBlock(cleaned: string, box: BoundingBox, page: int)
      requires Valid(Now()) && cleaned != ""
      modifies this
      ensures Now() == ChunkAssembly.TakeBlock(rules, target, old(Now()), cleaned, box, page)
      ensures Valid(Now())
      ensures Places() == Moved(old(Places()), MoveOf(rules, target, old(Now()), cleaned, page), box)
      ensures Account(Places()) == Account(old(Places())) + multiset{box}
    {
      TakeBlockFlow(rules, target, Now(), cleaned, box, page);
      MovedAccount(Places(), MoveOf(rules, target, Now(), cleaned, page), box);
      var isCaption, isEquation := rules.isCaption(cleaned), rules.isEquation(cleaned);
      var isHeading := rules.isHeading(cleaned);
      if crossPageBuffer.Some? && rules.startsLower(cleaned) && !isCaption && !isEquation && !isHeading {
        var held := crossPageBuffer.value;
        dropped := dropped + pendingBoxes;
        pendingText := Stitch(held.text, cleaned);
        pendingBoxes := held.boxes + [box];
        pendingPage := held.page;
        crossPageBuffer := None;
      } else if isCaption || isEquation {
        TakeAlone(cleaned, box, page);
      } else if isHeading {
        TakeHeading(cleaned, box, page);
      } else {
        TakeProse(cleaned, box, page);
      }
    }

    method TakeAlone(cleaned: string, box: BoundingBox, page: int)
      requires Valid(Now())
      modifies this
      ensures Now() == EmitAlone(rules, old(Now()), cleaned, box, page)
      ensures Valid(Now())
      ensures Places() == Moved(old(Places()), Alone, box)
    {
      EmitAloneFlow(rules, Now(), cleaned, box, page);
      FlushPending();
      var formula := if rules.isEquation(cleaned) then Some(rules.latex(cleaned)) else None;
      var content := if formula.Some? && formula.value != "" then formula.value else cleaned;
      chunks := chunks + [Chunk(counter, page, content, formula, [box], Tokens(rules.words(cleaned)))];
      counter := counter + 1;
    }

    method TakeHeading(cleaned: string, box: BoundingBox, page: int)
      requires Valid(Now()) && cleaned != ""
      modifies this
      ensures Now() == ChunkAssembly.TakeHeading(rules, old(Now()), cleaned, box, page)
      ensures Valid(Now())
      ensures var move := if old(pendingIsHeading) && page == old(pendingPage) then Joins else Heads;
              Places() == Moved(old(Places()), move, box)
    {
      TakeHeadingFlow(rules, Now(), cleaned, box, page);
      if pendingIsHeading && page == pendingPage {
        pendingText := pendingText + " - " + cleaned;
        pendingBoxes := pendingBoxes + [box];
        return;
      }
      FlushCrossPage();
      FlushPending();
      pendingText := cleaned;
      pendingBoxes := [box];
      pendingPage := page;
      pendingIsHeading := true;
    }

    method TakeProse(cleaned: string, box: BoundingBox, page: int)
      requires Valid(Now()) && cleaned != ""
      modifies this
      ensures Now() == ChunkAssembly.TakeProse(rules, old(Now()), cleaned, box, page, target)
      ensures Valid(Now())
      ensures var move := if CanMerge(rules, old(Now()), cleaned, page, target) then Joins else Replaces;
              Places() == Moved(old(Places()), move, box)
    {
      TakeProseFlow(rules, Now(), cleaned, box, page, target);
      var canMerge := false;
      if pendingText != "" && page == pendingPage {
        if pendingIsHeading {
          canMerge := true;
          pendingIsHeading := false;
        } else {
          var prevIsMeta, isMetadata := rules.hasEmail(pendingText), rules.isMetadata(cleaned);
          if !isMetadata && prevIsMeta {
            canMerge := false;
          } else if isMetadata && prevIsMeta {
            canMerge := true;
          } else if EndsHyphen(pendingText) || !EndsSentence(pendingText) || rules.startsLower(cleaned) {
            if rules.words(pendingText) + rules.words(cleaned) < target {
              canMerge := true;
            }
          }
        }
      }
      if canMerge {
        pendingText := Stitch(pendingText, cleaned);
        pendingBoxes := pendingBoxes + [box];
      } else {
        FlushPending();
        pendingText := cleaned;
        pendingBoxes := [box];
        pendingPage := page;
      }
    }

    /** The loop over all ordered blocks, and the two last flushes. */
    method Assemble(blocks: seq<Block>) returns (r: seq<Chunk>)
      requires Now() == START
      modifies this
      ensures Now() == Assembled(rules, target, blocks) && r == chunks
      ensures forall i :: 0 <= i < |r| ==> r[i].index == i
      ensures multiset(Boxes(r)) + multiset(dropped) == multiset(AllAccepted(rules, blocks))
      ensures !SomeStepBreaks(rules, target, blocks) ==> Boxes(r) == AllAccepted(rules, blocks) && dropped == []
    {
      for i := 0 to |blocks|
        invariant Valid(Now()) && Now() == After(rules, target, blocks[..i])
      {
        assert blocks[..i + 1][..i] == blocks[..i];
        var cleaned := rules.clean(blocks[i].text);
        if cleaned != "" {
          var box := BoxOf(rules, blocks[i]);
          if box.Some? {
            TurnPage(blocks[i].page);
            TakeBlock(cleaned, box.value, blocks[i].page);
          }
        }
      }
      assert blocks[..|blocks|] == blocks;
      FlushCrossPage();
      FlushPending();
      AssembledAccounts(rules, target, blocks);
      if !SomeStepBreaks(rules, target, blocks) {
        OrderKeptUntilSomeStepBreaks(rules, target, blocks);
      }
      r := chunks;
    }
  }
}
