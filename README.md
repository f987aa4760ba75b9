# Tree editor core, modelled in Dafny

The tree editor loads a JSON document, shows it as a tree of nodes, lets the user edit
nodes and exports the tree back to JSON. This project models the logic under that
interface:

- the node model: a tagged union of `root`, `object`, `list` and `data` nodes, each with
  a string id and an optional name (`nodes.dfy`);
- the JSON values the converter works on, with objects as entries in insertion order
  (`json.dfy`);
- `parseJsonToTree`, which turns a JSON value into a tree and gives every node a fresh id
  (`parser.dfy`);
- `treeToJson`, which folds a tree back into JSON, with last-write-wins on duplicate
  names (`exporter.dfy`);
- `calculateStats`, which walks the tree while updating a per-type counter dictionary
  and a running maximum depth in place (`stats.dfy`);
- the application state, with the `replace` step of `handleUpdateNode` and the initial
  tree `parseJsonToTree({})` (`app.dfy`);
- the node editor's working copy, with `commit`, `updateField`, `addChild` and
  `removeChild` (`node_editor.dfy`);
- the undo/redo depth-limit setting cell (`te_config.dfy`).

The id generator `uuid()` is an injected supply: a function `uuid: nat -> string` read at
a counter that the parser threads through and returns. With an injective supply, every
id in a parsed tree is distinct (`Parser.ParsedIdsDistinct`).

The model follows the code, also where the repository's tests expect otherwise (some
tests expect errors the code never raises):

- `parseJsonToTree` rejects nothing. A top-level array becomes a `list` node and a
  top-level scalar or `null` becomes a `data` node.
- `parseJsonToTree` has no cycle detection.
- `treeToJson` exports an unnamed child under the key `""` and never raises an error.
- Duplicate names are resolved last-write-wins. The later child's value sits at the
  position where the key was first written.
- The only history-related code is the depth-limit cell. No undo/redo stack, coalescing
  or node relocation is implemented, so none is modelled.
- Parsing `{ name: 'root', children: [...1000 objects] }` gives a root with two
  children (keys `name` and `children`), not 1000.
- An object stored under the key `""` is typed `root`, like the top-level object. This
  is because the type is `name ? 'object' : 'root'` (`Parser.ObjectUnderEmptyKeyIsRoot`).
- An object stored inside an array is typed `object`, because its name `String(i)` is
  never empty.

## Model

| member | source | states |
|---|---|---|
| `Nodes.IdsCountNodes` | src/types/nodes.ts:3-6 | every node of a tree contributes exactly one id: the preorder id list is as long as the tree has nodes |
| `Json.Put` | src/utils/exporter.ts:8 | `{ ...acc, [k]: v }`: a new key is appended after the existing entries; an existing key keeps its position and the key list is unchanged |
| `Json.PutLookup` | src/utils/exporter.ts:8 | after the spread, key `k` holds `v` and every other key holds exactly what it held before |
| `Json.PutKeepsKeysDistinct` | src/utils/exporter.ts:8 | the spread never produces an object with a repeated key |
| `Parser.DecimalString` | src/utils/parser.ts:11 | `String(i)` for a list index is a non-empty string of decimal digits, so list elements always carry a truthy name |
| `Parser.Build` | src/utils/parser.ts:5-28 | the node gets id `uuid(next)` and the given name; arrays become list nodes with one child per element, objects become object nodes when the name is truthy and root nodes otherwise, with one child per key, and any other value a data node holding it unchanged; exactly one id is consumed per JSON value |
| `Parser.BuildItems` | src/utils/parser.ts:11 | one child per array element, in order, child i named `String(index + i)`; consumes one id per JSON value in the elements |
| `Parser.BuildEntries` | src/utils/parser.ts:18 | one child per object key, in key order, each named by its key; consumes one id per JSON value in the entries |
| `Parser.ParseJsonToTree` | src/utils/parser.ts:4-30 | the top-level node has no name; an object gives a root, an array a list, a scalar or null a data node holding it (nothing is rejected); the tree has as many nodes as the input has JSON values |
| `Parser.ParsedIds` | src/utils/parser.ts:5-28 | the ids of the built tree, in preorder, are exactly `uuid(next)`, `uuid(next + 1)`, … up to the returned counter: each node's id comes from its own `uuid()` call |
| `Parser.ParsedIdsDistinct` | src/utils/parser.ts:8-22 | with an injective id supply, all ids in a parsed tree are pairwise distinct |
| `Parser.ObjectUnderEmptyKeyIsRoot` | src/utils/parser.ts:16 | an object built under the name `""` is a root node; under any non-empty name it is an object node |
| `Parser.ParseEmptyObject` | src/App.tsx:12 | `parseJsonToTree({})` is a root with no name and no children, using one id |
| `Exporter.TreeToJson` | src/utils/exporter.ts:3-16 | root and object nodes export as objects, list nodes as arrays, and a data node as its stored value unchanged (null included) |
| `Exporter.ExportFields` | src/utils/exporter.ts:7-10 | the reduce over the children never drops or reorders the accumulator's keys and adds at most one entry per child; its contents are fixed by `FoldLookup` and `FoldDistinctKeys` |
| `Exporter.ExportItems` | src/utils/exporter.ts:11-12 | a list exports positionally: element i is the export of child i, whatever the children's names |
| `Exporter.LastWithKey` | src/utils/exporter.ts:8 | the child whose write decides key `k` has key `k` and is one of the children; there is none exactly when no child has key `k` |
| `Exporter.LastWithKeyIsLast` | src/utils/exporter.ts:7-10 | the child found for key `k` sits at an index after which no child has key `k`: it is the last write to `k` |
| `Exporter.LastWithKeyAt` | src/utils/exporter.ts:7-10 | conversely, a child with key `k` that no later child overwrites is the one found for `k` |
| `Exporter.ExportLastWriteWins` | src/utils/exporter.ts:5-10 | in an exported root or object, key `k` holds the export of the last child whose name (or `""` when it has none) is `k`, and is absent when no child has that key |
| `Exporter.FoldLookup` | src/utils/exporter.ts:7-10 | the reduce, from any accumulator: a key written by some child ends with the last such child's export; any other key keeps its accumulator value |
| `Exporter.ExportWellFormed` | src/utils/exporter.ts:3-16 | every object the exporter builds, at every depth, has pairwise distinct keys |
| `Exporter.FoldDistinctKeys` | src/utils/exporter.ts:7-10 | when the children's keys are distinct, the reduce appends one entry per child, in child order |
| `Exporter.RoundTrip` | src/utils/exporter.ts:3-16 | `treeToJson(parseJsonToTree(v)) == v` for every JSON value whose objects have distinct keys |
| `Exporter.BuildRoundTrip` | src/utils/parser.ts:5-28 | exporting the tree built from any distinct-keyed value, under any name, gives that value back |
| `Exporter.EntriesRoundTrip` | src/utils/parser.ts:18 | the children built from an object's entries export back as exactly those entries, in order |
| `Exporter.ItemsRoundTrip` | src/utils/parser.ts:11 | the children built from an array's elements export back as exactly those elements, in order |
| `Exporter.EmptyRootExportsEmptyObject` | src/utils/exporter.ts:5-10 | a root with no children exports as `{}` |
| `Exporter.UnnamedChildUnderEmptyKey` | src/utils/exporter.ts:8 | in any exported root or object, an unnamed child that no later child overwrites is the value under the key `""`; no error is raised |
| `Stats.Walker.constructor` | src/utils/stats.ts:10-16 | all four counters start at 0 and the maximum depth at 0 |
| `Stats.Walker.Walk` | src/utils/stats.ts:17-21 | `walk(n, depth)` adds to each type's counter the number of nodes of that type in `n`, and raises `maxDepth` to the depth of the deepest node of `n` |
| `Stats.Walker.WalkChildren` | src/utils/stats.ts:20 | walking the children in order adds their per-type counts and raises `maxDepth` to the deepest of them |
| `Stats.CalculateStats` | src/utils/stats.ts:9-28 | every type has a counter equal to the number of nodes of that type; `total` is the number of nodes; `maxDepth` is the tree height with the root at depth 1 |
| `Stats.SumOverAllTypes` | src/utils/stats.ts:24 | summing the counter values gives the sum of the four counters |
| `Stats.CountsSumToSize` | src/utils/stats.ts:24 | the per-type counts add up to the number of nodes |
| `Stats.HeightBounds` | src/utils/stats.ts:16-22 | `1 <= maxDepth <= total` for every tree |
| `Stats.StatsDependOnShapeOnly` | src/utils/stats.ts:17-21 | two trees with the same shape have the same counts, total and height: names (empty, missing or duplicated), ids and values do not matter |
| `App.Replace` | src/App.tsx:20-25 | a node with `updated.id` becomes `updated`; any other node keeps its tag, id and name; another data node is unchanged; another container keeps its number of children, each passed through `replace` |
| `App.ReplaceAll` | src/App.tsx:24 | `children.map(replace)`: same length, child i replaced by `replace(child i)` |
| `App.ReplaceAbsentIsIdentity` | src/App.tsx:20-25 | when no node carries `updated.id`, the result equals the input tree |
| `App.ReplaceInstalls` | src/App.tsx:21-22 | when some node carries `updated.id`, `updated` occurs in the result |
| `App.ReplaceIdempotent` | src/App.tsx:20-26 | replacing with the same node twice gives the same tree as replacing once |
| `App.AppState.constructor` | src/App.tsx:12-16 | the initial tree is `parseJsonToTree({})`, a root with no name and no children; nothing is selected |
| `App.AppState.HandleUpdateNode` | src/App.tsx:18-27 | the tree becomes `replace(tree)` and the selection is left as it was |
| `App.AppState.Select` | src/App.tsx:95 | the clicked node becomes the selection; the tree is unchanged |
| `App.AppState.ImportParsed` | src/App.tsx:39-42 | after a successful `JSON.parse`, the tree becomes `parseJsonToTree(obj)` and the selection is cleared |
| `App.AppState.CurrentStats` | src/App.tsx:69 | the statistics shown are the counts, total and height of the current tree |
| `NodeEditor.WithField` | src/components/NodeEditor.tsx:18-19 | `{ ...n, [field]: value }` keeps the id and the tag; only the named field changes and every other field is preserved |
| `NodeEditor.NewChild` | src/components/NodeEditor.tsx:23-28 | the appended child is a data node with the fresh id, the name `new` and the value `''` |
| `NodeEditor.WithoutId` | src/components/NodeEditor.tsx:36 | `children.filter(c => c.id !== id)`: a node is in the result exactly when it is a child with another id, and the list never grows |
| `NodeEditor.WithoutIdKeepsOthersInOrder` | src/components/NodeEditor.tsx:36 | the filter drops every child with the id, keeps every other child as often as before, and keeps their order |
| `NodeEditor.WithoutAbsentId` | src/components/NodeEditor.tsx:34-37 | removing an id that no child carries leaves the children unchanged |
| `NodeEditor.AddThenRemoveRestores` | src/components/NodeEditor.tsx:21-37 | adding a child with a fresh id and then removing that id restores the children |
| `NodeEditor.Editor.constructor` | src/components/NodeEditor.tsx:14 | the working copy starts equal to the node being edited |
| `NodeEditor.Editor.Commit` | src/components/NodeEditor.tsx:16 | `onUpdate` receives the working copy as it stands, an empty typed name included |
| `NodeEditor.Editor.UpdateField` | src/components/NodeEditor.tsx:18-19 | the working copy becomes the copy with that field overridden |
| `NodeEditor.Editor.AddChild` | src/components/NodeEditor.tsx:21-30 | on a data node nothing changes; otherwise exactly one new data child is appended at the end and the existing children are unchanged |
| `NodeEditor.Editor.RemoveChild` | src/components/NodeEditor.tsx:32-38 | on a data node nothing changes; otherwise the children become those without the id, in order |
| `TeConfig.Config.constructor` | src/config/te-config.ts:1-3 | the limit starts at 20 |
| `TeConfig.Config.GetUndoRedoDepthLimit` | src/config/te-config.ts:5 | returns the current limit and changes nothing |
| `TeConfig.Config.SetUndoRedoDepthLimit` | src/config/te-config.ts:7-9 | stores the argument unconditionally, with no clamping or validation |
| `TeConfig.LastSetWins` | src/config/te-config.ts:1-9 | a fresh cell reads 20; after consecutive sets the getter returns the last value set |

## Left out

- Undo/redo history, coalescing, depth-bounded eviction and node relocation are not modelled. The code implements none of them: `UndoRedoPanel` only renders arrays it is given, and `onMoveNode` is never supplied.
- File import and export I/O is not modelled: `FileReader`, `JSON.parse` of text, `JSON.stringify`, the `Blob` download and `alert`. `ImportParsed` starts after `JSON.parse` has succeeded.
- `src/utils/validate.ts` is not part of this model. It wraps `JSON.stringify`, a foreign call.
- Circular references are out of scope, because Dafny datatypes are acyclic.
- `uuid()` is an injected supply `uuid: nat -> string` with a counter. Random generation is not modelled.
- Numbers are mathematical integers. Floating point and the JSON serialisation of special values (`NaN`, `Infinity`) are not modelled.
- JavaScript orders integer-like object keys before other keys. This is not modelled: objects keep plain insertion order.
- `parseJsonToTree` casts its result `as RootNode`. The model returns a general node, because the cast checks nothing.
- `NodeEditor.WithField`: the model leaves the node as it is when a `value` is written to a container or `children` to a data node. The node model has no place for either field. The editor never issues those writes: the value input exists only for data nodes, and `addChild`/`removeChild` return early on data nodes.
- The editor's deep copy `JSON.parse(JSON.stringify(node))` is the node itself. Dafny values are immutable, so a copy cannot alias the original.
- The module-level `let` of the config file is a field of a `Config` object, because Dafny has no module-level mutable variables.
- The counter dictionary is a `map` from the four type tags. Other string keys cannot occur, because a node's `type` is always one of the four.
- Rendering and drag-and-drop are not modelled: `TreeView`, `DraggableTreeNode`, `StatsPanel`, `UndoRedoPanel`, `SettingsPage`, `SettingsPanel`, the collapse set and value formatting.
