# Behavioural model of VeriScholar

VeriScholar is a research assistant: a FastAPI back end and a React front end. These modules state
and prove what its stateful cores do over whole runs.

| module | what it models |
|---|---|
| `ParentMaps`, `FolderMoves` | parent-pointer maps, the guarding ancestor walk, moves and deletions as graph surgery |
| `FolderTrees`, `FolderServices` | the nested folder tree built from shared objects, and create, update and delete on a table shared by all users |
| `PageOrder`, `ChunkAssembly`, `ChunkAssembler`, `ChunkTexts` | reading order of a page's text blocks, assembling blocks into chunks across pages, and what the chunks say |
| `LatexAgent`, `AgentDecisions`, `AgentStream` | the four-node LaTeX co-author agent, what it does in its runs, its event stream, and the service that listens to it |
| `DraftHistory` | a draft's version, snapshot, undo and redo |
| `BlobStore` | content-addressed files with reference counts shared by users |
| `TokenRefresh` | the browser's single-flight token refresh as atomic steps between awaits |
| `Base64Url`, `Jwt` | unpadded base64url and compact tokens |
| `RankFusion`, `Communities`, `PaperDedup`, `Embeddings` | rank fusion, community numbering, multi-key deduplication, batched embedding and its backfill |
| `StableSort`, `Lexicographic`, `Sequences`, `Wrappers` | Python's stable sort, its string order, and small shared facts |

Code that changes state is a class or a method with loops, proved equal to a function of the old
state; the properties are then proved about those functions over every run.

Where the code does not do what one would expect of it, the code is modelled as it stands and the
exact condition is proved:

- A paragraph can be lost between pages. `ChunkAssembly.ParagraphLost` shows a family of documents,
  `NothingLostIffNoOverwrite` says exactly when it happens, `OrderKeptUntilSomeStepBreaks` and
  `OrderKeptIffNoStepBreaks` when the order of the text survives.
- A narrow block in the middle of a two-column page is read twice (`PermutationIffNothingStraddles`, `MarkReadTwice`).
- The agent's run is bounded by 3k+22 node executions for k file lists chosen by the model, not by
  3k+19: if the model's call fails once, the built-in rule may list the files before the model
  queries the library. `NineteenIff` says for exactly which setups and starts 3k+19 holds, and
  `BoundAttained` that 3k+22 is attained for every k.
- An edit that the model orders under another name than the edit tool's own is stored but never
  compiled, and the run ends with its status still in progress (`OtherToolsEndRun`).
- Undo after a second agent edit returns to the text before the first one (`UndoAfterEditRestoresIff`,
  `UndoSkipsFirstEdit`).
- Attaching a PDF to a document that already has one leaves a reference that nobody returns
  (`PointedIsExactIff`, `EveryRunIsSafe`, `ReattachingLeaves`).
- Deleting a document without a blob lowers the count of a blob with the same hash; this is safe
  exactly if the row has a surplus reference (`MatchingDeleteIsSafeIff`, `HarmlessIffNobodyRobbed`,
  `BloblessDeleteRobs`).
- Deleting a folder can fail on the database's uniqueness constraint (`DeleteRefusedIffNamesClash`,
  `ChildNamedLikeParent`), although the code reports no such error of its own.
- Names at the top level can be doubled, by a renaming or by a deletion that lifts a child, and the
  next creation of such a name finds several rows (`TopNamesUniqueIff`, `SeveralRowsIff`,
  `LiftedTwinBreaksCreation`).
- Identifiers of arXiv papers are cut at the first `v`, wherever it stands (`CutsMeetIff`, `ArchiveNamesCollide`).

## Model

| member | source | states |
|---|---|---|
| `ParentMaps.DetectFolderCycle` | packages/core/src/core/services/graph_extractor.py:67-94 | The upward walk ends on any parent map, cyclic or not, and answers true exactly when the moved folder is the new parent or one of its ancestors. |
| `ParentMaps.EndsIffNoCycleAbove` | packages/core/src/core/services/graph_extractor.py:83-92 | On any map the walk up from a folder reaches the top if and only if there is no cycle at or above the folder. |
| `ParentMaps.BelowRootIffNoCycleAbove` | apps/api/src/api/services/folder_service.py:169-175 | On any map a folder hangs below an entry of the top level if and only if there is no cycle at or above it. |
| `FolderMoves.MoveKeepsForestIff` | apps/api/src/api/services/folder_service.py:195-228 | Re-hanging one folder of a forest gives a forest if and only if the new parent is absent or does not lie at or below the moved folder. |
| `FolderMoves.SpliceKeepsAncestors` | apps/api/src/api/services/folder_service.py:272-281 | Hanging a folder's children on its parent leaves every ancestor relation among the other folders as it was, in both directions, and keeps the forest. |
| `FolderServices.CreateKeepsForest` | apps/api/src/api/services/folder_service.py:34-64 | A created folder joins the forest; parents stay with their owner, and inside every folder names stay unique, as the database demands (it says nothing about the top level). |
| `FolderServices.CyclicRefusalIsExact` | apps/api/src/api/services/folder_service.py:195-216 | A move is refused as cyclic if and only if carrying it out would create a cycle, although the guard walks only the user's own folders of a table that all users share. |
| `FolderServices.UpdateKeepsForest` | apps/api/src/api/services/folder_service.py:195-238 | An accepted move or renaming keeps the whole table a forest with one owner per tree and unique names inside every folder (not at the top level). |
| `FolderServices.NothingLeftToCascade` | apps/api/src/api/services/folder_service.py:272-281 | Once the children are re-hung, no row refers to the deleted folder, so the cascading foreign key deletes nothing else. |
| `FolderServices.DeleteKeepsHierarchy` | apps/api/src/api/services/folder_service.py:272-281 | After a deletion exactly one folder is gone, the ancestor relation among all others stands in both directions, and nothing about the survivors but a parent changes. |
| `FolderServices.DeleteRefusedIffNamesClash` | apps/api/src/api/db/models/folder.py:25-28 | A deletion fails on the uniqueness constraint exactly when the folder has a parent and one of its children has the name of a folder beside it, or its own name (null parents never clash). |
| `FolderServices.ChildNamedLikeParent` | apps/api/src/api/db/models/folder.py:25-28 | Such a refusal is reachable: three creations, for any names, lead to a folder that cannot be deleted because its child has its name. |
| `FolderServices.DeleteLosesNoDocument` | apps/api/src/api/services/folder_service.py:265-281 | No document disappears: those of the folder move to the root, all others stay where they are, and none of the user's points to the deleted folder. |
| `FolderServices.EveryRunKeepsForest` | apps/api/src/api/services/folder_service.py:29-281 | Every run of create, update and delete requests of any users, accepted or refused, from an empty table ends in a forest and keeps all documents. |
| `FolderServices.EveryRunShowsEveryFolderOnce` | apps/api/src/api/services/folder_service.py:142-177 | After every such run the nested answer for a user, flattened, lists each of that user's folders exactly once and nothing else. |
| `FolderServices.OtherUsersUntouched` | apps/api/src/api/services/folder_service.py:183-281 | No request changes a folder or document of another user. |
| `FolderServices.CreateEffect` | apps/api/src/api/services/folder_service.py:34-64 | A folder is created exactly under one's own folder or at the top, where no row has its owner, parent and name; then that one row is added as asked, and a parent that is not one's own is answered as not found. |
| `FolderServices.UpdateEffect` | apps/api/src/api/services/folder_service.py:183-238 | An update is carried out exactly for one's own folder, to one's own parent not at or below it, and unless a row in the same folder has the new name; it rewrites parent and name of that row as asked, the name stripped, and keeps what is not given. |
| `FolderServices.TopNamesUniqueIff` | apps/api/src/api/services/folder_service.py:230-280 | From a table with unique names at the top level too, a request keeps them unique if and only if it neither renames a top-level folder, without moving it, to the name of another one of that user, nor deletes a top-level folder with a child named like another one. |
| `FolderServices.RunKeepsTopNamesIff` | apps/api/src/api/services/folder_service.py:29-281 | Throughout a run from an empty table the names at the top level stay unique if and only if no request of the two kinds occurs. |
| `FolderServices.SeveralRowsIff` | apps/api/src/api/services/folder_service.py:43-54 | The creation's uniqueness query, written for at most one row, finds several for some request if and only if a name is doubled at the top level. |
| `FolderServices.LiftedTwinBreaksCreation` | apps/api/src/api/services/folder_service.py:43-54 | It happens, for any two names: three creations and a deletion lift a twin of a folder to the top, and the next creation of that name finds two rows. |
| `FolderServices.FolderService.CreateFolder` | apps/api/src/api/services/folder_service.py:34-64 | The method's new tables and its answer are those of the request, error cases included. |
| `FolderServices.FolderService.UpdateFolder` | apps/api/src/api/services/folder_service.py:179-238 | The method's new tables and its answer are those of the request, error cases included. |
| `FolderServices.FolderService.DeleteFolder` | apps/api/src/api/services/folder_service.py:256-284 | The uncommitted results of the two bulk updates, the constraint and the deletion give the tables and the answer of the request; a violation leaves the tables as they were. |
| `FolderServices.FolderService.UnfileDocuments` | apps/api/src/api/services/folder_service.py:265-270 | Going over the documents row by row, in any order, moves exactly the user's documents of the folder to the root. |
| `FolderServices.FolderService.RehangSubfolders` | apps/api/src/api/services/folder_service.py:272-277 | Going over the folders row by row, in any order, hangs exactly the user's direct subfolders on the folder's parent and keeps owners and names. |
| `FolderServices.FolderService.IsDescendant` | apps/api/src/api/services/folder_service.py:344-358 | The second ancestor walk ends on any table and is true exactly when the target is the ancestor or lies below it. |
| `FolderTrees.GetFolderTree` | apps/api/src/api/services/folder_service.py:156-177 | The two passes over shared, growing entries link every entry to the entries of exactly its direct children, in list order; on a forest the objects unfold to the recursive tree of the folders. |
| `FolderTrees.NewItems` | apps/api/src/api/services/folder_service.py:157-167 | The first pass makes a fresh entry with an empty list for every listed folder and no other. |
| `FolderTrees.LinkItems` | apps/api/src/api/services/folder_service.py:169-177 | The second pass leaves every entry with exactly its direct children, and the top level with exactly the roots, in list order. |
| `FolderTrees.LinkedUnfolds` | apps/api/src/api/services/folder_service.py:169-177 | On a forest, entries that each list their direct children unfold to the folder's tree. |
| `FolderTrees.ForestListsEveryFolderOnce` | apps/api/src/api/services/folder_service.py:169-177 | On a forest the flattened answer has no repetitions and holds exactly the folders of the map. |
| `FolderTrees.TreeHoldsDescendants` | apps/api/src/api/services/folder_service.py:169-177 | The subtree of a folder holds exactly the folder and its descendants. |
| `FolderTrees.TreeFlattensOnce` | apps/api/src/api/services/folder_service.py:169-177 | No folder occurs twice in a subtree. |
| `FolderTrees.TreeWellPlaced` | apps/api/src/api/services/folder_service.py:172-173 | Within a subtree every child entry hangs below the folder that is its parent. |
| `FolderTrees.ForestWellPlaced` | apps/api/src/api/services/folder_service.py:172-175 | Every entry hangs directly below its own parent, or at the top level exactly because its parent is absent. |
| `FolderTrees.ForestOrdered` | apps/api/src/api/services/folder_service.py:144-177 | Whatever order the query lists the folders in, by name as it does, every level of the nested answer is in that order. |
| `FolderTrees.ShownIffNoCycleAbove` | apps/api/src/api/services/folder_service.py:169-177 | On any map, cyclic or not, a folder can be reached from the top of the answer if and only if there is no cycle at or above it. |
| `PageOrder.EachBlockReadOnceOrTwice` | apps/api/src/api/adapters/chunk_extractor.py:158-211 | In both layouts a block is read as often as it stands on the page, and twice as often exactly when both column tests accept it; nothing is invented. |
| `PageOrder.PermutationIffNothingStraddles` | apps/api/src/api/adapters/chunk_extractor.py:179-211 | The order is a permutation of the page if and only if no block lies within 15 points of the middle between the top spans and the foot of the columns. |
| `PageOrder.MarkReadTwice` | apps/api/src/api/adapters/chunk_extractor.py:180-195 | Such pages exist: for any texts, a mark between two columns of ten words or more is read twice. |
| `PageOrder.RunsReadDownwards` | apps/api/src/api/adapters/chunk_extractor.py:174-205 | One column reads by top edge, then left edge; of two columns each of the five runs by itself reads downwards (their order is ReadInOrder). |
| `PageOrder.ReadInOrder` | apps/api/src/api/adapters/chunk_extractor.py:211 | A two-column page is read run by run: top spans, left column, right column, foot, the rest, and each run downwards; for any two places of the answer the earlier is of no later run. |
| `PageOrder.ColumnsReadInTurn` | apps/api/src/api/adapters/chunk_extractor.py:176-211 | By coordinates alone: what ends at the top of the columns comes before everything else; of blocks that straddle neither, those ending left of the middle come before those starting right of it; what is in neither column comes last. |
| `PageOrder.OneColumnRead` | apps/api/src/api/adapters/chunk_extractor.py:173-174 | Without two columns, of any two places of the answer the earlier is higher, or as high and not further right. |
| `PageOrder.LayoutIs` | apps/api/src/api/adapters/chunk_extractor.py:164-177 | Two columns are seen exactly if a block of ten words, narrower than 0.55 of the page, ends left and one starts right of the middle, 15 points of slack each; the columns reach from the highest to the lowest point of all such blocks. |
| `ChunkAssembly.StepAccounts` | apps/api/src/api/adapters/chunk_extractor.py:273-401 | Every step keeps the account: emitted, buffered, pending and dropped boxes together grow by exactly the accepted box. |
| `ChunkAssembly.EveryBoxAccounted` | apps/api/src/api/adapters/chunk_extractor.py:273-401 | After any list of blocks the four places together hold the accepted boxes with their multiplicities. |
| `ChunkAssembly.StepDropsIffOverwrites` | apps/api/src/api/adapters/chunk_extractor.py:305-331 | A step drops boxes if and only if it overwrites an occupied buffer or resumes the buffered paragraph over another pending one; what is dropped stays dropped. |
| `ChunkAssembly.AssembledAccounts` | apps/api/src/api/adapters/chunk_extractor.py:230-271 | Chunk indices are 0 to n-1 in emission order, and the chunks' boxes plus the dropped ones are the accepted boxes. |
| `ChunkAssembly.BlockPlaced` | apps/api/src/api/adapters/chunk_extractor.py:314-401 | While the page does not turn, where a block's box goes is decided by the five rules in their order: continuation, caption or equation, new heading, joining a heading or the pending paragraph (the merge rule spelled out with its e-mail, hyphen, full-stop, case and length conditions), or a new paragraph. |
| `ChunkAssembly.PageTurned` | apps/api/src/api/adapters/chunk_extractor.py:305-312 | When the page turns, a pending paragraph ending with one of the nine finishing marks is emitted and any other buffered, and the block is then placed as if nothing had been pending. |
| `ChunkAssembly.HeadingFlag` | apps/api/src/api/adapters/chunk_extractor.py:305-401 | When what is pending counts as a heading: after a heading, until body text joins it or it is emitted; a move to the buffer and back leaves the flag as it is. |
| `ChunkAssembly.AcceptedIff` | apps/api/src/api/adapters/chunk_extractor.py:274-287 | A block is skipped exactly if nothing is left of its text or its area; else its box is its four ratios cut to the unit interval, and its page. |
| `ChunkAssembly.StitchRejoins` | apps/api/src/api/adapters/chunk_extractor.py:391-395 | A hyphen at the end is dropped when text is joined on; else a blank is put between. |
| `ChunkAssembly.DropsIffSomeStepLoses` | apps/api/src/api/adapters/chunk_extractor.py:305-331 | Something has been dropped after a list of blocks if and only if some block met an overwriting guard. |
| `ChunkAssembly.NothingLostIffNoOverwrite` | apps/api/src/api/adapters/chunk_extractor.py:305-331 | The chunks hold every accepted box exactly once per acceptance if and only if no block of the document meets one of the two overwriting guards. |
| `ChunkAssembly.OrderKeptUntilSomeStepBreaks` | apps/api/src/api/adapters/chunk_extractor.py:305-405 | For any number of pages and whatever boxes repeat: unless some block overwrites, or something is emitted past a buffered paragraph, nothing is dropped and the chunks' boxes are the accepted boxes in input order. |
| `ChunkAssembly.UnbufferedKeepsOrder` | apps/api/src/api/adapters/chunk_extractor.py:305-405 | If no block leaves a paragraph in the buffer, nothing is dropped and the chunks' boxes are the accepted boxes in input order. |
| `ChunkAssembly.OrderKeptIffNoStepBreaks` | apps/api/src/api/adapters/chunk_extractor.py:305-400 | With distinct accepted boxes, reading the chunks gives the accepted boxes in input order if and only if no block overwrites and none makes something be emitted past a buffered paragraph. |
| `ChunkAssembly.OnePageKeepsOrder` | apps/api/src/api/adapters/chunk_extractor.py:273-405 | For blocks of one page nothing is lost and the chunks' boxes are the accepted boxes in input order. |
| `ChunkAssembly.PageExtracted` | apps/api/src/api/adapters/chunk_extractor.py:158-405 | Ordering and assembling one page: the chunks hold each accepted box once, and the box of each straddling block once more. |
| `ChunkAssembly.PageExtractedOnceIff` | apps/api/src/api/adapters/chunk_extractor.py:158-405 | A page is extracted without repetition if and only if no accepted block straddles the middle. |
| `ChunkTexts.StepFollows` | apps/api/src/api/adapters/chunk_extractor.py:273-401 | Every step keeps each chunk, the pending and the buffered paragraph spelled by the texts of exactly the blocks whose boxes they carry. |
| `ChunkTexts.ChunksTellTheirBlocks` | apps/api/src/api/adapters/chunk_extractor.py:230-405 | Every chunk is told by accepted blocks in input order: it carries exactly their boxes, the page of the first and its number of words; its content is their cleaned texts, headings dashed on and others stitched on, all of one page unless they start in lower case; a caption or equation stands alone; with the lost blocks they are all accepted blocks, each once. |
| `ChunkAssembly.ParagraphLost` | apps/api/src/api/adapters/chunk_extractor.py:322-331 | For all heuristics and all three body-text blocks of which the first is cut by the end of its page, the second does not start in lower case and the third does: the second reaches no chunk. |
| `ChunkAssembler.Assembler.FlushPending` | apps/api/src/api/adapters/chunk_extractor.py:230-250 | The closure moves the pending boxes, and only those, to the end of the chunks, keeps the numbering, and keeps text and boxes together. |
| `ChunkAssembler.Assembler.FlushCrossPage` | apps/api/src/api/adapters/chunk_extractor.py:252-271 | The closure moves the buffered boxes, and only those, to the end of the chunks and keeps the numbering. |
| `ChunkAssembler.Assembler.TurnPage` | apps/api/src/api/adapters/chunk_extractor.py:305-312 | A page turn buffers an unfinished paragraph over whatever was buffered, emits a finished one, or does nothing; no box is counted twice, and the heading flag outlives a move to the buffer. |
| `ChunkAssembler.Assembler.TakeBlock` | apps/api/src/api/adapters/chunk_extractor.py:314-401 | Whatever branch the block takes, the four places together gain exactly its box, and the branch says which place. |
| `ChunkAssembler.Assembler.TakeAlone` | apps/api/src/api/adapters/chunk_extractor.py:333-350 | A caption or equation goes to the chunks after the pending paragraph and past the buffered one. |
| `ChunkAssembler.Assembler.TakeHeading` | apps/api/src/api/adapters/chunk_extractor.py:352-364 | A heading joins a pending heading of its page, or is pending after both the buffered and the pending paragraph were emitted in that order. |
| `ChunkAssembler.Assembler.TakeProse` | apps/api/src/api/adapters/chunk_extractor.py:366-401 | Body text joins the pending paragraph exactly under the merge rule, and replaces it after emitting it otherwise. |
| `ChunkAssembler.Assembler.Assemble` | apps/api/src/api/adapters/chunk_extractor.py:273-405 | The loop over mutable variables computes the assembly: chunks numbered from 0, every accepted box in a chunk or dropped, and all in input order unless some block overwrites or overtakes. |
| `LatexAgent.RunIsSafe` | apps/api/src/api/agents/latex_agent.py:838-949 | In every run: at most three compiles; no digest seen twice; no two compiles of sources with one digest; the source about to be compiled has the digest last seen; and the planner never leaves without a tool. |
| `LatexAgent.NextKeeps` | apps/api/src/api/agents/latex_agent.py:470-1018 | Every node keeps the control invariant on which the safety and the measure rest. |
| `LatexAgent.CompileKeepsLog` | apps/api/src/api/agents/latex_agent.py:838-847 | A compile adds to the log a source whose digest is the last one seen and none of those compiled before. |
| `LatexAgent.RankFalls` | apps/api/src/api/agents/latex_agent.py:1027-1072 | The measure falls with every node execution, except that executing a file list or a library query may raise it by two. |
| `LatexAgent.MeasureBound` | apps/api/src/api/agents/latex_agent.py:1027-1072 | Executions so far plus the measure never exceed 16 plus 3 for every file list or library query executed. |
| `LatexAgent.RunLedger` | apps/api/src/api/agents/latex_agent.py:601-640 | Over every run: file lists are those the model chose plus at most one by the built-in rule; the library is queried at most once. |
| `LatexAgent.LookingAroundIsLogged` | apps/api/src/api/agents/latex_agent.py:800-836 | The count of executed file lists and library queries, read off the event stream, rises exactly when a node executes one. |
| `LatexAgent.RunEnds` | apps/api/src/api/agents/latex_agent.py:470-723 | Every run ends: within 19 executions without a planning model, and within 3k+22 if the model chose to list files k times. |
| `LatexAgent.NineteenIff` | apps/api/src/api/agents/latex_agent.py:470-723 | For every setup and start, 3k+19 bounds all runs if and only if not: a model can plan, the message asks for files but no evidence, and main.tex has two rewritings whose digests differ from each other and from the start's. |
| `LatexAgent.FewCompiles` | apps/api/src/api/agents/latex_agent.py:888-924 | Without two such rewritings, a run that queried the library compiles at most once. |
| `LatexAgent.RunPath` | apps/api/src/api/agents/latex_agent.py:470-717 | Over every run: until the planner is done looking around nothing is touched, and once the library is queried only main.tex is rewritten and the recorded digests are one more than the compiles, two more while a compile is pending. |
| `LatexAgent.BoundAttained` | apps/api/src/api/agents/latex_agent.py:595-640 | For every k, every setup in which a model can plan and the message asks for files but no evidence, and every start with three rewritings of digests of their own, some run with k lists chosen by the model takes 3k+22 executions, so the bound cannot be improved. |
| `LatexAgent.ARunOfTwentyTwo` | apps/api/src/api/agents/latex_agent.py:595-640 | Such setups exist: a run of 22 executions without a list chosen by the model, when the digest is the text itself. |
| `AgentDecisions.FirstToolStarted` | apps/api/src/api/agents/latex_agent.py:534-717 | Which tool a run starts first, as a function of setup and first oracle: the one the model names; else the library, the file list, an edit or the compiler, as the message asks, in this order. |
| `AgentDecisions.RunWithoutModel` | apps/api/src/api/agents/latex_agent.py:601-717 | A whole run without a model that goes well: exactly which tools are started in which order for every message, that main.tex is rewritten before the one compile if evidence, another author or title is asked for and untouched if not, and the done event that reports it. |
| `AgentDecisions.RetitlingRun` | apps/api/src/api/agents/latex_agent.py:642-702 | Asking for another author or title starts the edit tool and then the compiler, in six nodes; the rewritten source is the only one compiled and the one delivered. |
| `AgentDecisions.ModelIsFollowed` | apps/api/src/api/agents/latex_agent.py:533-594 | Whenever nothing is to be healed or injected, a model that names a tool is followed. |
| `AgentDecisions.EvidenceIsInjected` | apps/api/src/api/agents/latex_agent.py:512-531 | After a library query, in any run, the next events are the thought, the edit and the new main.tex. |
| `AgentDecisions.RejectionIsHealed` | apps/api/src/api/agents/latex_agent.py:926-949 | After a compile, in any run, the agent turns to the answer if it went well or was the third, and else heals: the next events are the thought, the edit and the new main.tex. |
| `AgentDecisions.EditsAreStored` | apps/api/src/api/agents/latex_agent.py:740-765 | An edit under any of its three names streams and stores the given text in the named file and compiles nothing. |
| `AgentDecisions.CompilesAreStreamed` | apps/api/src/api/agents/latex_agent.py:838-874 | A compile under either name streams the next attempt with the compiler's verdict and leaves the source alone. |
| `AgentDecisions.OthersChangeNothing` | apps/api/src/api/agents/latex_agent.py:767-836 | Every other tool leaves both texts and the compiler alone and streams its start, and its end if it is a known one. |
| `AgentDecisions.EditIsRouted` | apps/api/src/api/agents/latex_agent.py:887-924 | An edit goes on to the compiler if the digest of the two stripped texts is new, and stops the run with a thought if it is not. |
| `AgentDecisions.OtherToolsEndRun` | apps/api/src/api/agents/latex_agent.py:958-961 | A run whose model first names any other tool ends after it without compiling, its status still in progress. |
| `AgentDecisions.DoneTellsHowItEnded` | apps/api/src/api/agents/latex_agent.py:964-1018 | The done event's success is the verdict of the last compile streamed, its count the number of attempts, and its status says oscillation, completion, the third failure, or neither. |
| `AgentStream.StreamIsFaithful` | apps/api/src/api/agents/latex_agent.py:740-765 | At every point of every run the content updates alone, replayed, give the agent's two texts; compile attempts are numbered 1, 2, ... in order; a done event comes once, last, and carries the texts. |
| `AgentStream.SuccessCarriesCompiledSource` | apps/api/src/api/agents/latex_agent.py:998-1018 | An ended run's last event is the done event, and if it reports success it carries exactly the source that was last compiled. |
| `AgentStream.ServiceFollowsAgent` | apps/api/src/api/services/draft_service.py:941-974 | At every point of every run the service's fold over the stream holds the agent's texts and compile count, and has an answer exactly when the run has ended. |
| `AgentStream.HeardOneMore` | apps/api/src/api/services/draft_service.py:955-972 | What each kind of event makes the service hold, for any stream: updates of the two files, the attempt number, and non-empty closing texts. |
| `AgentStream.ClosingChangesNothing` | apps/api/src/api/services/draft_service.py:967-972 | The done event's texts, which the service takes only when they are not empty, are those it already holds. |
| `AgentStream.Listen` | apps/api/src/api/services/draft_service.py:941-974 | The service's loop computes that fold. |
| `AgentStream.Coauthor.EditLatexFiles` | apps/api/src/api/agents/latex_agent.py:273-283 | Only the two known file names are written; any other name changes nothing. |
| `AgentStream.Coauthor.ExecuteTool` | apps/api/src/api/agents/latex_agent.py:726-879 | Running the tool on the shared state, with its event list grown step by step, gives the node's new state. |
| `AgentStream.Coauthor.Run` | apps/api/src/api/agents/latex_agent.py:1205-1254 | The driver's state is the run's; without a planning model 19 oracle answers suffice to end it. |
| `DraftHistory.AcceptedExpectationsRise` | apps/api/src/api/services/draft_service.py:487-516 | In any run of updates, undo calls and agent edits the versions expected by the accepted updates and by the accepted agent edits that send one strictly increase, so no two are the same. |
| `DraftHistory.AcceptedExpectsCurrent` | apps/api/src/api/services/draft_service.py:911-914 | An update, or an agent edit that sends a version, is carried out only if that is the current one. |
| `DraftHistory.UpdateEffect` | apps/api/src/api/services/draft_service.py:487-516 | An update is carried out exactly against the current version; it stores each text it is given and keeps the other, and the snapshot. |
| `DraftHistory.UndoEffect` | apps/api/src/api/services/draft_service.py:826-853 | Undo restores the undo slot if filled, else the redo slot, and puts the present texts with their version into the other slot. |
| `DraftHistory.OneWayUndoEffect` | apps/api/src/api/services/draft_service.py:856-868 | A snapshot of the older form is restored field by field, and the next call brings the present back. |
| `DraftHistory.UndoRefusedIff` | apps/api/src/api/services/draft_service.py:819-855 | Undo is refused exactly if no slot is filled. |
| `DraftHistory.ChatEffect` | apps/api/src/api/services/draft_service.py:911-983 | An agent edit is refused exactly for a version that is not current; else the agent's texts are stored, and a snapshot of the texts it started from, the client's where sent, only if there was none. |
| `DraftHistory.RunsKeepOneSlot` | apps/api/src/api/services/draft_service.py:822-868 | From a draft without a snapshot, or with exactly one of the two slots filled, every run stays in one of these two forms. |
| `DraftHistory.UndoSwaps` | apps/api/src/api/services/draft_service.py:819-875 | Undo succeeds exactly if there is a snapshot, and it swaps the current with the stored source. |
| `DraftHistory.EvenUndosRestore` | apps/api/src/api/services/draft_service.py:819-875 | Any even number of undo calls restores both texts, and any odd number brings the stored ones. |
| `DraftHistory.ChatStoresAgentTexts` | apps/api/src/api/services/draft_service.py:941-983 | What is stored after a chat edit is the agent's own final pair of texts. |
| `DraftHistory.UndoAfterEditRestoresIff` | apps/api/src/api/services/draft_service.py:922-933 | Undo right after an agent edit brings back the text before that edit if and only if there was no snapshot yet or the old snapshot holds the same text. |
| `DraftHistory.UndoSkipsFirstEdit` | apps/api/src/api/services/draft_service.py:922-933 | After two agent edits in a row, for any texts with digests of their own, undo goes back behind the first one, whose text is then in no slot. |
| `DraftHistory.DraftModel.UpdateDraft` | apps/api/src/api/services/draft_service.py:487-516 | The row after an update, and the conflict error, are those of the request. |
| `DraftHistory.DraftModel.UndoDraftSnapshot` | apps/api/src/api/services/draft_service.py:819-875 | The row after an undo call, the older one-way snapshot included, and the missing-snapshot error are those of the request. |
| `DraftHistory.DraftModel.StreamChatAssist` | apps/api/src/api/services/draft_service.py:911-983 | The row after a chat edit is that of the request: version check, client texts, snapshot capture, the agent's run and the stored texts. |
| `BlobStore.StepIsHarmlessIff` | apps/api/src/api/services/document_service.py:519-611 | From a safe store (counts at least the documents pointing to a row, every pointed-to row present under its document's hash, files exactly those of the rows) a request leaves the store safe and every other document untouched if and only if it is not the deletion of a document without a blob that matches a row without a reference to spare. |
| `BlobStore.HarmlessIffNobodyRobbed` | apps/api/src/api/services/document_service.py:1542-1572 | A whole serialised run is harmless at every point if and only if no such deletion happens in it. |
| `BlobStore.OwedChanges` | apps/api/src/api/services/document_service.py:713-733 | The surplus over all rows rises by one exactly with a re-attachment and falls by one exactly with a matching deletion. |
| `BlobStore.EveryRunIsSafe` | apps/api/src/api/services/document_service.py:1542-1572 | After every harmless run each document with a blob has its row and its file, the sum of all counts is the number of documents with a blob plus the re-attachments less the matching deletions, and all counts are exact if and only if those balance. |
| `BlobStore.EmptyLibraryIsEmptyIff` | apps/api/src/api/services/document_service.py:1563-1569 | When every document is deleted, no row and no file is left if and only if re-attachments and matching deletions balance. |
| `BlobStore.HonestRunIsSafe` | apps/api/src/api/services/document_service.py:1542-1572 | If documents without a blob never carry the hash of a PDF, every run is harmless and the counts are exact if and only if no PDF was attached to a document that already had one. |
| `BlobStore.ReattachingLeaves` | apps/api/src/api/services/document_service.py:733-743 | Upload, attach again, delete: for any two files no document is left, but a row or a file is. |
| `BlobStore.BloblessDeleteRobs` | apps/api/src/api/services/document_service.py:1556-1569 | Deleting one user's metadata under the hash of another user's PDF takes that PDF and its row away, for every such hash. |
| `BlobStore.ExactIffNothingOwed` | apps/api/src/api/services/document_service.py:1564-1566 | In a safe store the total surplus is never negative, and it is zero exactly if every row's count is exact. |
| `BlobStore.UploadAcceptedIff` | apps/api/src/api/services/document_service.py:519-568 | An upload succeeds exactly for a good file and fresh keys; a file that is stored already is no reason to refuse. |
| `BlobStore.UploadEffect` | apps/api/src/api/services/document_service.py:528-611 | The new document has the user, the hash and the row with that hash, which counts one more if it was there and is the only row added, with count one, if not; everything else stands. |
| `BlobStore.AttachAcceptedIff` | apps/api/src/api/services/document_service.py:653-731 | Attaching succeeds exactly for the user's own document, a good file and a fresh key or a stored file. |
| `BlobStore.AttachEffect` | apps/api/src/api/services/document_service.py:713-743 | The document keeps its owner and gets the file's hash and row, which counts one more or is new; everything else stands. |
| `BlobStore.RegisterEffect` | apps/api/src/api/v1/endpoints/discovery.py:104-143 | A document known by its metadata is added under a fresh key with its hash and no row; rows and files stand. |
| `BlobStore.DeleteEffect` | apps/api/src/api/services/document_service.py:1542-1571 | A deletion succeeds exactly for the user's own document; its row counts one less, or goes with the file of its hash at the last reference; everything else stands. |
| `BlobStore.PointedSurplus` | apps/api/src/api/services/document_service.py:706-743 | Uploading or attaching leaves a surplus reference exactly on the row that the document pointed to before. |
| `BlobStore.PointedIsExactIff` | apps/api/src/api/services/document_service.py:713-733 | The counts stay exact if and only if they were exact and the document had no blob. |
| `BlobStore.MatchingDeleteIsSafeIff` | apps/api/src/api/services/document_service.py:1556-1569 | Deleting a document without a blob whose hash matches a row is safe if and only if that row counts more references than it has. |
| `BlobStore.DocumentService.UploadDocument` | apps/api/src/api/services/document_service.py:519-611 | The tables and files after an upload are those of the request; it fails exactly when the request does. |
| `BlobStore.DocumentService.AttachPdf` | apps/api/src/api/services/document_service.py:653-743 | The tables and files after attaching are those of the request; it fails exactly when the request does. |
| `BlobStore.DocumentService.DeleteDocument` | apps/api/src/api/services/document_service.py:1542-1572 | The tables and files after a deletion are those of the request; it fails exactly when the request does. |
| `BlobStore.DocumentService.LookUp` | apps/api/src/api/services/document_service.py:520-524 | The search over the rows finds the row with the hash, or nothing exactly when there is none. |
| `BlobStore.DocumentService.LowerCount` | apps/api/src/api/services/document_service.py:1564-1569 | Lowering a count deletes row and file exactly when it reaches zero. |
| `BlobStore.DeleteWithBlob` | apps/api/src/api/services/document_service.py:1550-1569 | Deleting a document with a blob keeps the store safe, removes exactly that document, and keeps exact counts exact. |
| `BlobStore.DeleteWithoutBlob` | apps/api/src/api/services/document_service.py:1556-1561 | Deleting a document without a blob whose hash matches no row touches no row. |
| `TokenRefresh.StepKeepsInv` | apps/web/src/lib/api-client.ts:50-123 | Every atomic step between awaits keeps: one leader exactly while a refresh is under way; the queue holds exactly the waiting requests, each once, and is empty otherwise; every call's counters fit its phase. |
| `TokenRefresh.EnterKeepsInv` | apps/web/src/lib/api-client.ts:61-71 | Joining a refresh, starting one, or giving up keeps the invariant. |
| `TokenRefresh.CompleteKeepsInv` | apps/web/src/lib/api-client.ts:114-122 | Settling all waiters and resetting the flag in one step keeps the invariant; no waiter is left behind. |
| `TokenRefresh.SingleFlight` | apps/web/src/lib/api-client.ts:11-147 | For any number of requests and any interleaving: at most one refresh in flight, an empty queue when none is, every waiter settled exactly once and with its own refresh's outcome, and each request sent at most twice, the second time exactly if that refresh brought a token. |
| `TokenRefresh.JoinsExactlyWhenUnauthorized` | apps/web/src/lib/api-client.ts:134-135 | Told by the events alone: a request joins a refresh exactly if it is answered as unauthorized while a refresh token is there, and it joins the one after those complete by then. |
| `TokenRefresh.SentAgainIff` | apps/web/src/lib/api-client.ts:134-146 | A finished request was sent twice exactly if it was so answered and the refresh it joined brought a token, and once otherwise. |
| `TokenRefresh.OutcomesAreTold` | apps/web/src/lib/api-client.ts:83-121 | The outcomes are, in order, a failure for every refused refresh and what the body brought for every other one. |
| `TokenRefresh.AnyAnswerMayCome` | apps/web/src/lib/api-client.ts:73-91 | Nothing is assumed about the answers: whatever a request waits for may come out either way. |
| `TokenRefresh.StepProgresses` | apps/web/src/lib/api-client.ts:50-147 | Every step brings the requests together strictly closer to their end. |
| `TokenRefresh.RunsAreShort` | apps/web/src/lib/api-client.ts:50-147 | A run of n requests has at most 6n steps. |
| `TokenRefresh.NobodyIsStranded` | apps/web/src/lib/api-client.ts:65-69 | As long as a request is unfinished some step is possible, so no waiter hangs forever. |
| `TokenRefresh.ApiClient.SettleRefreshSubscribers` | apps/web/src/lib/api-client.ts:17-31 | Swapping the queue out and walking over it settles exactly the queued requests and leaves an empty queue. |
| `TokenRefresh.ApiClient.FinishRefresh` | apps/web/src/lib/api-client.ts:114-122 | The leader's last segment settles the queue and resets the flag, for success and failure alike. |
| `TokenRefresh.ApiClient.RefreshAccessTokenQueued` | apps/web/src/lib/api-client.ts:61-81 | The first segment gives up without a refresh token, joins the queue, or becomes the leader. |
| `TokenRefresh.ApiClient.Handle` | apps/web/src/lib/api-client.ts:50-147 | Each step on the mutable state is the step of the protocol and keeps its invariant. |
| `Base64Url.EncodedShape` | apps/api/src/api/services/auth_service.py:149-151 | Encoded text is never 1 modulo 4 long, is free of padding and dots, and the decoder puts back exactly the padding that was stripped. |
| `Base64Url.DecodeEncode` | apps/api/src/api/services/auth_service.py:149-158 | Every byte string comes back from encoding and decoding. |
| `Base64Url.EncodedCharacters` | apps/api/src/api/services/auth_service.py:149-151 | The encoding itself: as many characters as the bits need, each from the url-safe alphabet of RFC 4648 and each the value of its six bits. |
| `Jwt.CreatedTokenDecodes` | apps/api/src/api/services/auth_service.py:160-209 | A created token decodes to the payload with iat and exp exactly as long as the clock has not passed exp, and is refused as expired after that. |
| `Jwt.CreatedTokenCarriesPayload` | apps/api/src/api/services/auth_service.py:160-209 | Over a faithful JSON, until it expires a created token decodes to every claim of the payload as it was, iat set to the time of creation and exp to the lifetime later, and nothing else. |
| `Jwt.CreatedTokenShape` | apps/api/src/api/services/auth_service.py:169-177 | A created token has three segments: the header, JSON claims, and the digest of the first two. |
| `Jwt.AcceptedIff` | apps/api/src/api/services/auth_service.py:182-209 | Exactly which tokens are accepted, and with which claims: ASCII, a third segment decoding to the digest of the first two, a second decoding to JSON claims that have not expired. |
| `Jwt.TokenSplits` | apps/api/src/api/services/auth_service.py:177-186 | Joining three dot-free segments and splitting at dots gives those three back. |
| `Jwt.JoinSplit` | apps/api/src/api/services/auth_service.py:182-186 | Joining what splitting gave restores the text. |
| `Jwt.AcceptedTokenIsSigned` | apps/api/src/api/services/auth_service.py:182-209 | An accepted token consists of exactly three segments and its third decodes to the HMAC of the first two. |
| `Jwt.ReusedSignatureNeedsCollision` | apps/api/src/api/services/auth_service.py:186-198 | If one signature is accepted with two different signing inputs, the HMAC collides on them. |
| `RankFusion.AnswerIsPermutation` | apps/api/src/api/services/benchmark_runner_service.py:1201-1222 | The answer holds every document of either ranking once; the reranking permutes the first twenty and leaves the rest in fused order. |
| `RankFusion.AheadEarnsMore` | apps/api/src/api/services/benchmark_runner_service.py:1202-1205 | In a ranking without repetitions the document ahead earns strictly more. |
| `RankFusion.ContributionAt` | apps/api/src/api/services/benchmark_runner_service.py:1202-1205 | In a ranking without repetitions the document at place i, from 0, earns 1/(61 + i). |
| `RankFusion.DominatorRanksHigher` | apps/api/src/api/services/benchmark_runner_service.py:1202-1208 | A document ahead in both rankings has a strictly larger fused score and an earlier fused place. |
| `RankFusion.TopClosedUpward` | apps/api/src/api/services/benchmark_runner_service.py:1207-1208 | Whoever dominates a document of the top twenty is among them. |
| `RankFusion.DominatorPrecedes` | apps/api/src/api/services/benchmark_runner_service.py:1207-1222 | A dominating document whose token overlap is no smaller precedes in the final list as well. |
| `RankFusion.AnswerOrdered` | apps/api/src/api/services/benchmark_runner_service.py:1207-1222 | The order spelled out: the first twenty by fused score plus 0.025 times the overlap, the others by fused score, nobody behind better fused than anybody in front, ties to the smaller number. |
| `RankFusion.AddReciprocalRanks` | apps/api/src/api/services/benchmark_runner_service.py:1201-1205 | The dictionary loop adds to every document exactly what the ranking contributes, in insertion order of the keys. |
| `RankFusion.AddOverlap` | apps/api/src/api/services/benchmark_runner_service.py:1210-1216 | The loop gives each of the first twenty its overlap bonus. |
| `RankFusion.RankHybridRrf` | apps/api/src/api/services/benchmark_runner_service.py:1197-1222 | The program with its dictionary and loops computes the answer. |
| `Communities.InputOrderIrrelevant` | apps/api/src/api/services/graph_community_service.py:37-72 | With distinct node ids and distinct (source, target) pairs, permuting the inputs gives the same sequence of graph insertions. |
| `Communities.NumberingDependsOnPartition` | apps/api/src/api/services/graph_community_service.py:85-93 | The numbered lists depend only on the partition as a set of sets, not on the order of communities or of nodes in them. |
| `Communities.CanonicalShape` | apps/api/src/api/services/graph_community_service.py:85-93 | Sizes do not increase, lists ascend, no node is in two communities, and the lists cover exactly the partition's nodes. |
| `Communities.BuildGraph` | apps/api/src/api/services/graph_community_service.py:37-72 | The two insertion loops give the graph of the sorted inputs, with the same nodes and edges skipped and weights repaired. |
| `Communities.EdgeInGraphIff` | apps/api/src/api/services/graph_community_service.py:61-72 | An edge is in the graph exactly if a given edge says so once stripped, its ends are named nodes and differ; a weight that is not positive counts as 1. |
| `Communities.NodesInserted` | apps/api/src/api/services/graph_community_service.py:40-51 | Nodes without surrounding blanks are inserted in ascending order. |
| `Communities.EdgesInserted` | apps/api/src/api/services/graph_community_service.py:56-72 | Edges without blanks at their ends are inserted by source, then target. |
| `Lexicographic.LexLeMeans` | apps/api/src/api/services/graph_community_service.py:40-60 | The order on strings: a prefix comes first, and else the first character that differs decides. |
| `Communities.TiesByFirstNode` | apps/api/src/api/services/graph_community_service.py:90-93 | Of communities of one size the one with the lower first node gets the lower number. |
| `Communities.NumberCommunities` | apps/api/src/api/services/graph_community_service.py:85-131 | Ids are dense; the node map sends each node to the one community that lists it and has exactly the listed nodes as keys. |
| `Communities.PartitionCommunities` | apps/api/src/api/services/graph_community_service.py:34-133 | The whole call, for an oracle that partitions the graph's nodes: exactly the non-empty stripped input ids are mapped, each to the number of the list that holds it; without nodes the oracle is not asked. |
| `Communities.SamePartitionSameAnswer` | apps/api/src/api/services/graph_community_service.py:34-133 | Permuted nodes and edges, and an oracle that lists the same partition in another order, give the same numbered lists and the same node map. |
| `Communities.MapNodes` | apps/api/src/api/services/graph_community_service.py:99-100 | The inner loop maps exactly the nodes of one community to its number. |
| `PaperDedup.KeptDisjoint` | apps/api/src/api/adapters/scholarly_search_adapter.py:655-675 | Kept papers are eligible and have pairwise disjoint identifier sets. |
| `PaperDedup.DroppedSharesIdentifier` | apps/api/src/api/adapters/scholarly_search_adapter.py:672-673 | An eligible candidate is kept or shares an identifier with a paper kept before it. |
| `PaperDedup.DedupIdempotent` | apps/api/src/api/adapters/scholarly_search_adapter.py:655-675 | Deduplicating the kept list again is the identity. |
| `PaperDedup.ResultsAreRanked` | apps/api/src/api/adapters/scholarly_search_adapter.py:677-687 | The final list has at most the limit, ascends by the three-part key, keeps identifiers disjoint, and nothing cut off ranks strictly before anything returned. |
| `PaperDedup.ReturnedInOrder` | apps/api/src/api/adapters/scholarly_search_adapter.py:680-687 | Of two papers returned the first is the peer-reviewed one, else the more similar one, else not the older one. |
| `PaperDedup.IdentifiersAre` | apps/api/src/api/adapters/scholarly_search_adapter.py:661-670 | Everything a paper is known by: its first name in lower case, and DOI, arXiv id, cut arXiv id and title stripped and in lower case. |
| `PaperDedup.SameNameDropsSecond` | apps/api/src/api/adapters/scholarly_search_adapter.py:661-675 | The same DOI, arXiv id or title, up to case and blanks around it, makes two papers one. |
| `PaperDedup.SecondKeptIff` | apps/api/src/api/adapters/scholarly_search_adapter.py:672-675 | Of two eligible papers the second is kept exactly if nothing they are known by is the same. |
| `PaperDedup.EqualRankKeepsOrder` | apps/api/src/api/adapters/scholarly_search_adapter.py:680-686 | Papers equal in all three parts of the key keep the order of the candidates. |
| `PaperDedup.CutIsWorkIff` | apps/api/src/api/adapters/scholarly_search_adapter.py:666-668 | Cutting an identifier with any version, or none, leaves the work's identifier if and only if that has no v of its own. |
| `PaperDedup.CutsMeetIff` | apps/api/src/api/adapters/scholarly_search_adapter.py:666-668 | Two versioned identifiers are cut to one string, if neither work has a v, exactly when they name one work, and otherwise exactly when the works agree up to their end or first v. |
| `PaperDedup.MeetingCutsDropSecond` | apps/api/src/api/adapters/scholarly_search_adapter.py:666-675 | Of two eligible papers whose cut identifiers meet only the first is kept, whatever their DOIs and titles. |
| `PaperDedup.ArchiveNamesCollide` | apps/api/src/api/adapters/scholarly_search_adapter.py:666-675 | Two different works of the archive solv-int, for any DOIs and titles: the second is dropped. |
| `PaperDedup.FuseResults` | apps/api/src/api/adapters/scholarly_search_adapter.py:655-687 | The loop over the seen identifiers, the sort and the cut compute that list. |
| `Embeddings.CallIsPointwise` | apps/api/src/api/services/embedding_service.py:109-110 | If the endpoint gives each text one vector under its index, in any order, sorting by index gives the vectors in the order of the texts. |
| `Embeddings.MissingFacts` | scripts/backfill_chunk_embeddings.py:61-68 | The selection lists exactly the rows without a vector, in order, each once. |
| `Embeddings.BatchedIsPointwise` | apps/api/src/api/services/embedding_service.py:58-75 | For every batch size the batches together are the pointwise map of one-text embedding, in input order. |
| `Embeddings.EveryTextEmbedded` | apps/api/src/api/services/embedding_service.py:71-73 | For every batch size each text gets the vector of itself without surrounding blanks, or of a single blank if nothing else is left. |
| `Embeddings.GetEmbeddingsBatch` | apps/api/src/api/services/embedding_service.py:62-75 | The stepping loop computes the batches, a non-positive batch size counts as 128, and the first failure fails the whole. |
| `Embeddings.FillingClosesOneGap` | scripts/backfill_chunk_embeddings.py:93-94 | Giving one NULL row a vector lowers the number of NULL rows by exactly one. |
| `Embeddings.AssignBatch` | scripts/backfill_chunk_embeddings.py:93-94 | The zip loop gives each selected row its own vector, changes no other row, and closes exactly as many gaps as the batch has rows. |
| `Embeddings.Backfill.FillBatch` | scripts/backfill_chunk_embeddings.py:61-103 | One turn of the loop: as many gaps as the batch size, or all, are closed, the earliest first; nothing else changes; and it says when it stops. |
| `Embeddings.Backfill.Run` | scripts/backfill_chunk_embeddings.py:57-106 | The loop ends whatever the endpoint answers; rows that had a vector are untouched; the number processed is the number of gaps closed; with an honest endpoint and a positive batch size every row ends with a vector and each filled one has that of its own text. |

## Left out

- Folder colours, descriptions and counts, and assigning or removing documents: they do not touch the tree.
- The order of the folder query is any enumeration of the user's folders; sorting by name is the database's.
- Fresh keys (folder, document and blob ids) are arguments of the requests; a key in use is refused.
- Text heuristics of the chunk extractor (cleaning, captions, equations, headings, metadata, LaTeX-like formulas), word counts and the rounded coordinate ratios: functions about which nothing is assumed. Random chunk ids and the reading and filtering of raw PDF blocks before the ordering are not modelled.
- ChunkAssembly.OrderKeptIffNoStepBreaks: its converse half assumes distinct accepted boxes, because two equal boxes cannot be told apart in the output; the half that promises the order is `OrderKeptUntilSomeStepBreaks` and assumes nothing.
- The agent's tool outputs, diagnostics, file assets, wording of answers and exceptions thrown out of a node, and LangGraph's own limit on steps. The digest is any function of the two stripped texts. An argument or tool name that is missing or empty counts as missing.
- Draft titles, formats, roles, chat messages and PDF caches. A database trigger also raises the version, so versions are claimed to increase, not to increase by one.
- DraftHistory.UndoAfterEditRestoresIff: speaks of snapshots that the service itself records; hand-made ones with both slots filled are modelled in `UndoDraftSnapshot` but not covered by it.
- Transactions overlapping in time: each service call is one atomic step. So the retry after a concurrent blob insertion and lost updates are outside the model, as are session limits, `ingest_pdf_from_url`, storage paths and document statuses. That a file is a PDF of allowed size is an argument.
- Local storage, the auth store and the header details of the browser client; public endpoints are folded into the answer not asking for a refresh.
- JSON and HMAC are functions; `CreatedTokenDecodes` needs only that parsing undoes printing for the claims at hand. The library's base64 decoder is modelled as the lenient CPython one. A payload that is JSON but no object is refused like any malformed one.
- Rank fusion uses exact reals for floats; tokens and overlap are any function.
- An edge weight that is missing or not a number is replaced by 1.0 before the model starts; the text of community labels, paper counts and the Louvain search itself: its answer is any partition of the graph's nodes, listed in any order.
- Lower-casing, stripping and the rounded title similarity are any functions; the candidate gathering before the fusion is not modelled.
- The embedding vectors' contents, the table's creation times (rows stand in selection order), logging, and a negative batch size handed to the database.
