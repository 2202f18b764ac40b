# Fractal story tree: a verified model of the tree engine

The app grows a story from a premise. Each sentence can be expanded into three
sentences tagged with the narrative beats INICIO, NUDO and DESENLACE. Each of
those can be expanded again, collapsed, regenerated, or exported as indented
text. This project models the engine behind that in Dafny and proves what it
guarantees:

- the story node and its beat table;
- the pre-order lookup `findNodeById` and the rebuilding update `updateNodeById`;
- the check on the generation service's answer and the building of three fresh
  children (`setNodeChildren`, `createChildId`);
- the page state and intents: the in-flight flag sets, `expandNode`,
  `toggleNode`, `regenerateNode`, `startNewStory` and `resetStory`;
- the export `collectStoryText`.

Modules, one per file:

- `Wrappers` (wrappers.dfy): `Option` and `Result`.
- `StoryNodes` (story_node.dfy): `StoryNode`, beat labels, the new root, and the
  vocabulary the contracts use, which is pre-order, paths from the root, node
  headers and the well-formedness rules. A node has no children or exactly
  three, an expanded node has its three, and child `i` has beat `i` and names
  its parent.
- `TreeOps` (tree_ops.dfy): `FindNodeById` and `UpdateNodeById` as recursive
  functions. Lemmas tie them to the pre-order, to the absence of an id, and to
  each other.
- `Expansion` (expansion.dfy): the response-shape check, child identities, the
  `setNodeChildren` updater and the toggle updater, with their lemmas.
- `Serializer` (serializer.dfy): `CollectStoryText` is a recursive method with
  the same accumulator loop as the source. It is proved against `StoryText`,
  and `StoryText` is proved equal to an independent definition: the list of
  visits (node, depth) a walk makes, rendered one line per visit. Further
  lemmas show the visits are exactly the nodes reached through expanded
  ancestors, and that each visit carries the right tag.
- `Engine` (engine.dfy): `String.prototype.trim`, and the class `TreeEngine`,
  whose fields are the component's state: `storyData`, `storyDataRef.current`,
  the two flag sets and `error`. Each intent is a method that changes those
  fields.

Abstractions:

- The generation service is an oracle `string -> ApiOutcome`. The call either
  throws with a message (the network, reading the body or a reply text that
  is not a string can throw), or returns a status, an error text and the parsed
  payload.
- The `Date.now()`/`Math.random()` part of a child identity is a salt the caller
  supplies.
- Each asynchronous intent is split into its synchronous steps. `BeginExpand`
  runs up to the network call, and `FinishExpand` applies the outcome to the
  tree as it is then. Any other intent can be run between the two, which is the
  interleaving the page allows.

Behaviour as the code has it:

- Regenerating a node does not replace its sentence from its parent's sentence.
  `regenerateNode` calls `expandNode(id, true)`, which asks again for three
  children from the node's own sentence and replaces its children. Only the
  regenerating flag set is used instead of the expanding one.
- The export tag comes from `beatIndex` first, and `[PREMISE] ` is used only for
  a beat-less node at depth 0.
- `expandNode` has no guard against a node that already has children.
- Nothing keeps a node out of both flag sets at once.

## Model

| member | source | states |
|---|---|---|
| StoryNodes.BeatLabel | src/app/page.tsx:36-52 | beat 0 is labelled INICIO, beat 1 NUDO and beat 2 DESENLACE, and each label belongs to one beat only |
| StoryNodes.NewRoot | src/app/page.tsx:337-344 | the root built from a premise has identity "root", no parent, no beat, no children, is collapsed, carries the premise, and is well formed |
| TreeOps.FindNodeById | src/app/page.tsx:107-120 | a found node carries the identity searched for |
| TreeOps.FindInChildren | src/app/page.tsx:112-117 | the children are searched in order, and a found node carries the identity searched for |
| TreeOps.FirstWithId | src/app/page.tsx:107-120 | the reference search over a list: nothing exactly when no element has the id, otherwise the first element that has it |
| TreeOps.FindIsFirstPreOrderMatch | src/app/page.tsx:107-120 | the lookup returns the first node with that identity in pre-order (parent before children, children left to right) |
| TreeOps.FindNoneIffAbsent | src/app/page.tsx:107-120 | the lookup returns null exactly when no node of the tree has the identity |
| TreeOps.FindNodeByIdSpec | src/app/page.tsx:107-120 | a found node is a node of the tree with that identity, and some node has the identity exactly when the lookup finds one |
| TreeOps.UpdateNodeById | src/app/page.tsx:122-135 | a matching node is replaced by the updater's result; any other node keeps its identity, text, flag, parent, beat and number of children |
| TreeOps.UpdateAbsentIsIdentity | src/app/page.tsx:122-135 | updating an identity that no node has gives back the same tree, value for value |
| TreeOps.FindAfterUpdate | src/app/page.tsx:127-128 | when the updater keeps the identity, looking the node up after the update gives the updater applied to the node found before |
| TreeOps.UpdateKeepsUntargeted | src/app/page.tsx:131-134 | a node whose path from the root avoids the identity keeps its identity, text, flag, parent, beat and number of children, and a subtree without the identity is kept whole |
| TreeOps.UpdateReplacesFirstMatch | src/app/page.tsx:127-128 | the node at the first match on a path is replaced by the updater applied to it |
| TreeOps.PathIsClassified | src/app/page.tsx:122-135 | every path either avoids the identity or passes first through a match, so the two lemmas above cover every node |
| TreeOps.UpdateUndo | src/app/page.tsx:122-135 | updating with `f` and then with an inverse `g` that keeps the identity gives back the tree |
| TreeOps.UpdatePreservesWellFormed | src/app/page.tsx:122-135 | an updater that keeps the shape rules of the nodes it hits keeps the whole tree well formed, and keeps the identity, parent and beat of its top node |
| Expansion.CheckExpansionResponse | src/app/page.tsx:227-247 | the answer is accepted exactly when the status is 2xx, the payload parses and `expansions` is an array of exactly three, and then the three sentences come back in order; otherwise the failure carries the status message, the parse message, the format message or the thrown message |
| Expansion.ChildIdsDistinct | src/app/page.tsx:154-157 | two children of one parent at different positions never get the same identity, whatever the salts, and each identity starts with the parent's identity and a dash |
| Expansion.CreateChildId | src/app/page.tsx:154-157 | a child identity is the parent's identity, a dash, the child's index digit (0 to 2), a dash and the time-and-random salt |
| Expansion.FreshChildren | src/app/page.tsx:261-268 | the built children are three, with pairwise distinct identities |
| Expansion.ExpandWith | src/app/page.tsx:258-269 | the updater keeps a node's identity, text, parent and beat, marks it expanded and gives it the three fresh children |
| Expansion.SetNodeChildren | src/app/page.tsx:252-271 | applying a result keeps the identity, text, parent and beat of the tree's top node, and leaves its flag and child count alone when it is not the target |
| Expansion.SetNodeChildrenAtTarget | src/app/page.tsx:252-271 | afterwards the target is expanded and has exactly three collapsed, childless children with sentence `i`, beat `i`, the target as parent and distinct identities; the target's own identity, text, parent and beat are unchanged |
| Expansion.SetNodeChildrenMissingIsNoOp | src/app/page.tsx:252-271 | a result for a node no longer in the tree leaves the tree unchanged |
| Expansion.SetNodeChildrenKeepsWellFormed | src/app/page.tsx:252-271 | applying a result keeps the tree well formed and keeps a root a root |
| Expansion.Toggled | src/app/page.tsx:315-318 | the toggle updater flips `isExpanded` and changes nothing else in the node |
| Expansion.ToggleTwiceRestores | src/app/page.tsx:310-319 | toggling the same node twice gives back the original tree |
| Expansion.ToggleAtTarget | src/app/page.tsx:310-319 | a toggle flips the target's `isExpanded` and changes nothing else about it |
| Expansion.ToggleKeepsWellFormed | src/app/page.tsx:305-319 | flipping a node that has its children keeps the tree well formed |
| Serializer.Indent | src/app/page.tsx:389 | the indentation is two spaces per level and nothing else |
| Serializer.Prefix | src/app/page.tsx:390-397 | a tag is present exactly when the node has a beat or sits at depth 0, and a tag is bracketed and followed by one space |
| Serializer.LineParts | src/app/page.tsx:389-399 | a line is the indentation, then the tag, then the sentence unchanged, then a newline |
| Serializer.NodeLine | src/app/page.tsx:389-399 | the first line built for a node is its indentation, its tag and its sentence, ended by a newline |
| Serializer.CollectStoryText | src/app/page.tsx:388-408 | the text returned is the node's line followed, when it is expanded, by each child's text in order one level deeper |
| Serializer.StoryTextRendersVisits | src/app/page.tsx:388-408 | that text is exactly one line per visited node, in pre-order of the visits |
| Serializer.CollapsedHidesChildren | src/app/page.tsx:401-405 | a collapsed node yields only its own line, whatever children it holds |
| Serializer.VisitsFollowOpenPaths | src/app/page.tsx:401-405 | every visited node is reached from the start node through expanded ancestors only, at depth equal to the path length |
| Serializer.OpenPathsAreVisited | src/app/page.tsx:401-405 | every node reached through expanded ancestors is visited, at depth equal to the path length |
| Serializer.VisitedPrefixes | src/app/page.tsx:390-397 | in a well-formed story the only depth-0 line is the root's, tagged `[PREMISE] `, and every deeper line is tagged with its node's beat label |
| Serializer.ExpandedTripleText | src/app/page.tsx:399-405 | an expanded node with three collapsed children exports its own line and then its children's lines, in order |
| Serializer.ExpandedPremiseExport | src/app/page.tsx:388-408 | a premise expanded once exports as `[PREMISE] `, then `  [INICIO] `, `  [NUDO] ` and `  [DESENLACE] ` lines carrying the sentences in order |
| Engine.IsTrimmable | src/app/page.tsx:332 | spaces, tabs and line ends are trimmed, and digits and ASCII letters never are |
| Engine.Trim | src/app/page.tsx:332 | the trimmed input is the slice between leading and trailing whitespace, starts and ends with non-whitespace, and is empty exactly when the input is all whitespace |
| Engine.TrimIdempotent | src/app/page.tsx:332 | trimming an already trimmed input changes nothing |
| Engine.FlagFor | src/app/page.tsx:280 | a regeneration marks the regenerating set, and any other expansion marks the expanding set |
| Engine.Lookup | src/app/page.tsx:275 | a node found through the ref is a node of the ref's tree with the identity, and nothing is found exactly when there is no tree or no node has the identity |
| Engine.TreeEngine.constructor | src/app/page.tsx:160-172 | a fresh page has no tree, an empty ref, no flags and no error |
| Engine.TreeEngine.SyncRef | src/app/page.tsx:174-176 | the effect sets the ref to the committed tree and changes nothing else |
| Engine.TreeEngine.AddNodeFlag | src/app/page.tsx:191-197 | the chosen set gains the node, and the other set, the tree, the ref and the error are unchanged |
| Engine.TreeEngine.RemoveNodeFlag | src/app/page.tsx:199-205 | the chosen set loses the node, and the other set, the tree, the ref and the error are unchanged |
| Engine.TreeEngine.BeginExpand | src/app/page.tsx:274-283 | a node missing from the ref changes nothing and sends nothing; otherwise the node's own sentence is sent, the node is marked in the chosen set and the error is cleared |
| Engine.TreeEngine.FinishExpand | src/app/page.tsx:285-293 | an accepted answer is applied by `setNodeChildren` to the tree as it is now; a rejected one leaves the tree alone and records its message; either way the node is unmarked |
| Engine.TreeEngine.ExpandNode | src/app/page.tsx:273-296 | a node missing from the ref changes nothing; otherwise the tree becomes the answer applied, or stays as it was on failure, the error is the failure's message or none, and the node ends unmarked |
| Engine.TreeEngine.ToggleNode | src/app/page.tsx:298-322 | a missing node is ignored; a childless one goes through the expansion path with the expanding set; any other has only its flag flipped |
| Engine.TreeEngine.RegenerateNode | src/app/page.tsx:324-329 | the expansion path from the node's own sentence, marking and unmarking the regenerating set and leaving the expanding set alone |
| Engine.TreeEngine.StartNewStoryAsWritten | src/app/page.tsx:331-352 | blank input changes nothing; otherwise the new root is committed and the error cleared, but the expansion looks "root" up in the stale ref, so with an empty ref the root stays a leaf |
| Engine.TreeEngine.StartNewStory | src/app/page.tsx:331-352 | blank input changes nothing; otherwise the new root is committed and the premise itself is expanded: the answer applied to the root, or the root left a leaf with the error recorded |
| Engine.TreeEngine.ResetStory | src/app/page.tsx:354-362 | no tree, no node marked in either set, no error |
| Engine.FirstStartAsWritten | src/app/page.tsx:331-352 | on a page without a story, starting as the code is written commits the root but never expands it |
| Engine.FirstStart | src/app/page.tsx:331-352 | on a page without a story, the corrected start expands the root into the three sentences the service returns for the premise, or leaves a leaf and records the error; no node is left in the expanding set |

## Left out

- The network call, the prompt with its genre instruction, the extraction of `content[0].text`, the code-fence stripping and `JSON.parse` (src/app/page.tsx:207-241) are I/O and library parsing. They are folded into the `ApiOutcome` value the oracle returns.
- A payload that parses to `null` makes the code throw a `TypeError` while reading `expansions`. That throw is an `ApiOutcome.Thrown` with whatever message the runtime gives. Any other parsed value without an array `expansions` (a number, a string, a boolean, an object without the field) reaches the shape check and is `Parsed(NotAnArray)`.
- Expansion.CheckExpansionResponse: the `as [string, string, string]` cast is unchecked in the code, so an array of three non-strings passes it. The model's items are always strings.
- The `"Unknown error"` branch of `expandNode` applies only to a thrown non-`Error` value, which no modelled outcome produces.
- `Date.now()` and `Math.random()` in `createChildId` are nondeterministic. They are the caller's `salts`, one per child.
- Id uniqueness across the whole tree is not proved. It depends on the salts being fresh, which the code takes on trust from the clock and the random source. Only distinctness among siblings is proved.
- The clipboard, the copy handlers, `copiedNodeId`, `copyAllFeedback`, the copy-all header and the timers (src/app/page.tsx:137-152, 364-386, 410-431) are browser I/O.
- React rendering, the `storyInput` and `genre` state, `showStructureInfo` and `StoryNodeView` are UI. `resetStory` clearing the input box is not modelled.
- The description and colour columns of the beat table affect only rendering.
- React's scheduling is not modelled. The model says when the ref effect runs (`SyncRef`) and where an intent can pause (`BeginExpand`/`FinishExpand`), and the caller picks the order.

## Findings

| source | as written | input that shows it | evidently intended | confidence | as-written member | corrected member |
|---|---|---|---|---|---|---|
| src/app/page.tsx:346-351 | `startNewStory` commits the new root with `setStoryData` and then calls `expandNode("root")`. `expandNode` looks the node up in `storyDataRef.current`, which the effect at src/app/page.tsx:174-176 refreshes only after the next render. | The first story on a fresh page: the ref is still `null` when `expandNode` runs, so it returns at once, and the root is shown unexpanded with no request made. | Starting a story expands the premise into its three beats at once. | medium, not executed | Engine.FirstStartAsWritten | Engine.FirstStart |
