# codenode, modelled in Dafny

codenode renders a tree of nodes into text. A node is one of:
- a string;
- a marker that changes the indentation depth (`indent`, `dedent`, relative or absolute depth changes);
- a marker that emits indentation at the current depth;
- the newline marker;
- any iterable of nodes.

`Writer` (codenode/writer.py) walks the tree without recursion. It keeps a `WriterStack` of iterators and a mutable `depth`, and writes each chunk that `process_node` yields to a stream. Two patches change `process_node`:
- `auto_coerce_patch` writes `coerce(node)` instead of raising a TypeError;
- `debug_patch` is meant to append a report of the writer stack to any exception's message. As written, its report function `print_writer_stack` drains the stack and then indexes it, which raises a TypeError of its own (see "## Findings"). Its `DebugIterator` counts the items it has yielded and keeps the last eight.

The post-processing helpers build new node sequences from a node or from its rendered text:
- `joined` interleaves a separator;
- `prefixer` and `prefixer_iter` cut the output into lines and prefix each one;
- `suffixer` pads every line to the longest and appends a suffix;
- `node_transformer` maps a function over the leaves;
- `PartitionedNode` wraps an indented body between a header and a footer;
- `isplit` splits a string on a separator.

The older node layers are modelled too:
- `CodeNode` in codenode/base and `Node` in codenode/node.py, with `total = header ++ body ++ footer`, coercing `add_child` and a stack-based `walk`;
- the earliest `CodeNode` in base/nodes/codenode.py;
- the Python `Function`, `If`/`Elif`/`Else`/`Conditional` and C++ `Function` nodes;
- the two `CodeNodeWriter`s. One stores a depth in each stack entry. The other keeps a running depth counter.

How the model is built:
- `Engine.RenderSeq` is the specification of a traversal: the chunks written, the depth left behind, and the exception that stopped it.
- The imperative `Writing.Writer` is a class with a cursor stack, a `depth` field and a stream. It is proved to write exactly those chunks.
- Every loop of the source is a `method` with a `while` loop and is proved against a specification function. This covers `isplit`, `joined`, `walk`, both `node_to_lines`, the drain in `print_writer_stack` and every `dump`. The `yield_lines` method (`Prefixing.YieldLines`) is the corrected loop; the loop as written is the function `Prefixing.YieldLinesAsWritten`.
- The mutating node classes are Dafny classes whose methods state their whole new state.

Modules, one per source file or concern:
- `Text`, `Lines`: string helpers. `Lines.SplitLines` models `str.splitlines` on `'\n'`.
- `Markers`: codenode/nodes/depth_change.py and codenode/nodes/indentation.py.
- `Engine`, `RenderingLaws`, `CoercionLaws`: what `process_node` and a traversal compute.
- `Writing`: codenode/writer.py.
- `Debug`: codenode/debug.py.
- `Joining`, `Prefixing`, `Suffixing`, `Transforming`, `Partitioned`, `Utility`: codenode_utilities/* and functionality/utility.py.
- `CodeTree`, `CodeNodes`, `NodeLayer`, `TreeWriter`: codenode/base, codenode/node.py and the Python and C++ nodes.
- `EarlyLayer`: base/nodes/codenode.py and base/codenode_writer.py.

## Model

| member | source | states |
|---|---|---|
| Markers.NewDepthFor | codenode/nodes/depth_change.py:1-53 | a depth change fails exactly for the abstract base, with NotImplementedError |
| Markers.IndentsFor | codenode/nodes/indentation.py:1-64 | an indentation count fails exactly for the abstract base, with NotImplementedError |
| Markers.RelativeMovesByOffset | codenode/nodes/depth_change.py:30-31 | a relative change moves the depth by exactly its offset |
| Markers.AbsoluteIgnoresDepth | codenode/nodes/depth_change.py:52-53 | an absolute change yields its value whatever the current depth |
| Markers.RelativeCompose | codenode/nodes/depth_change.py:30-31 | Relative(a) then Relative(b) equals Relative(a+b); Relative(a) then Relative(-a) restores the depth |
| Markers.AbsoluteIdempotent | codenode/nodes/depth_change.py:52-53 | applying an absolute change twice equals applying it once |
| Markers.IndentationVariants | codenode/nodes/indentation.py:30-64 | current indentation gives the depth; Relative(0) behaves like current; absolute ignores the depth |
| Engine.Repeat | codenode/writer.py:105 | Python's `s * n` is the empty string when n is zero or negative |
| Engine.UnsupportedNode | codenode/writer.py:111-117 | the error for an unprocessable node is a TypeError whose single message contains the node's text |
| Engine.BaseProcessNode | codenode/writer.py:100-117 | a string yields itself unchanged; a depth change yields nothing and sets the depth to `new_depth_for`; indentation yields `indentation * indents_for(depth)` without changing the depth; a newline yields the newline string; only an iterable is pushed; a TypeError arises exactly for unsupported values |
| Engine.ProcessNode | codenode_utilities/auto_coerce.py:7-27 | under the patch a TypeError becomes the single chunk `coerce(node)` with depth and stack unchanged; every other outcome passes through unchanged |
| Engine.RenderSeqAppend | codenode/writer.py:36-46 | rendering a concatenation renders the first part, then the second from the depth the first left behind |
| Engine.Flatten | codenode/writer.py:36-46 | a pushed iterable is drained before its parent resumes, as if its items were spliced in place |
| Engine.Unfold | codenode/writer.py:125-127 | a non-iterable node contributes its own effect, then the rest continues from its depth unless it raised |
| Engine.PrependTwice | codenode/writer.py:125-127 | chunks written in two steps are the same as both groups written in one step |
| RenderingLaws.LeafOrder | codenode/writer.py:36-46 | a tree of strings renders its leaves in left-to-right depth-first order and leaves the depth unchanged |
| RenderingLaws.NetDepth | codenode/writer.py:102-103 | a tree of supported nodes never raises; with only relative changes the final depth is the start depth plus the sum of the offsets |
| RenderingLaws.TailProperties | codenode/writer.py:100-107 | supported-only and relative-only trees stay so after their first node |
| RenderingLaws.DepthPersistsPastSequenceEnd | codenode/writer.py:42-46 | a depth change inside a nested sequence is still in force after that sequence ends |
| RenderingLaws.EmptySequence | codenode/writer.py:42-46 | an empty iterable contributes nothing |
| RenderingLaws.NestedScoping | codenode/writer.py:102-105 | k nested indent/dedent pairs emit indentation at depth+k and restore the depth |
| RenderingLaws.RelativeStep | codenode/writer.py:102-103 | a relative depth change emits nothing and moves the depth for the rest |
| RenderingLaws.CurrentStep | codenode/writer.py:104-105 | current indentation emits the indentation repeated to the depth |
| RenderingLaws.TextStep | codenode/writer.py:100-107 | a string or newline emits exactly one chunk and keeps the depth |
| RenderingLaws.LineRenders | tests/basic_test.py:21-29 | `line(s)` renders as indentation, s, newline |
| RenderingLaws.LinesRender | tests/basic_test.py:21-29 | a list of `line`s renders each line's three chunks in order at the same depth |
| RenderingLaws.LinesText | tests/basic_test.py:21-31 | the text of rendered lines is each line, indented and terminated by the newline |
| RenderingLaws.BlockThenDedent | tests/basic_test.py:21-29 | an indented block of lines, then a dedent, renders the lines one level in and restores the depth |
| RenderingLaws.TestTreeChunks | tests/basic_test.py:21-29 | the test tree renders its header line, then its four body lines one level deeper |
| RenderingLaws.DefaultScenario | tests/basic_test.py:31 | with the defaults the test tree gives the four-space-indented function |
| RenderingLaws.AlteredScenario | tests/basic_test.py:33-35 | with newline `+`, indentation `' '` and depth 2 every line gains two more indents |
| CoercionLaws.UnsupportedValueRaises | codenode/writer.py:108-117 | without the patch an unsupported value raises a TypeError naming it, having written nothing |
| CoercionLaws.UnsupportedValueCoerced | codenode_utilities/auto_coerce.py:21-25 | with the patch an unsupported value is written as its coerced text |
| CoercionLaws.PatchTransparent | codenode_utilities/auto_coerce.py:22-23 | on trees the base writer accepts, the patched writer writes the same chunks and ends at the same depth |
| CoercionLaws.PatchedNeverTypeError | codenode_utilities/auto_coerce.py:24-25 | under the patch no TypeError escapes a traversal |
| Writing.Pull | codenode/writer.py:36-46 | one resumption of the stack's iteration yields the head of the pending work, or ends with an empty stack when no work remains |
| Writing.AdvanceWork | codenode/writer.py:44 | pulling from a live top iterator takes the head of the pending work |
| Writing.PopWork | codenode/writer.py:45-46 | popping an exhausted iterator leaves the pending work unchanged |
| Writing.PushWork | codenode/writer.py:27-34 | a pushed iterable's items come before everything already pending |
| Writing.StepOutcome | codenode/writer.py:125-127 | processing the pulled node accounts for the head of the traversal: on an exception the traversal ends with it, otherwise the node's chunks come first |
| Writing.SizeAppend | codenode/writer.py:125-127 | the loop's measure of a concatenation is the sum of the parts |
| Writing.WriterStack.constructor | codenode/writer.py:21-22 | a new stack is empty |
| Writing.WriterStack.Push | codenode/writer.py:27-34 | an iterator over the node becomes the new top, below it nothing changes |
| Writing.WriterStack.Next | codenode/writer.py:36-46 | the next item and the new stack are those of `Pull` |
| Writing.Stream.Write | codenode/writer.py:127 | a write appends exactly one chunk |
| Writing.Writer.constructor | codenode/writer.py:57-82 | the stack starts as the single cursor `(node,)`, the depth as given |
| Writing.Writer.BaseProcessNode | codenode/writer.py:84-117 | the chunks, depth, stack and exception are those of the specification |
| Writing.Writer.CoercingProcessNode | codenode_utilities/auto_coerce.py:21-25 | the patched chunks, depth, stack and exception |
| Writing.Writer.ProcessNode | codenode/debug.py:91-100 | the corrected debug patch: the wrapped method's chunks, depth and stack, and on failure the same exception kind with its message augmented by the stack report |
| Writing.Writer.PrintWriterStackAsWritten | codenode/debug.py:42-65 | as written: iterating `writer.stack` lists every pending node and empties the stack, then indexing it raises the TypeError `'WriterStack' object is not subscriptable` |
| Writing.Writer.AsWrittenProcessNode | codenode/debug.py:91-100 | as written: the wrapped method's chunks and depth; any failure becomes the not-subscriptable TypeError with the stack drained, so the original exception is never reported |
| Writing.AsWrittenLosesReport | codenode/debug.py:65 | on the tree `Other(d)` the plain writer raises the TypeError naming `d`, and the exception raised as written is no augmentation of it |
| Writing.Writer.Step | codenode/writer.py:125-127 | one loop round writes a prefix of the pending traversal and decreases the measure, or finishes with all of it |
| Writing.Writer.Dump | codenode/writer.py:119-127 | the stream receives exactly the traversal's chunks, the depth is the traversal's final depth, and its exception is reported (augmented, under the corrected debug patch); chunks already written stay |
| Writing.Writer.Dumps | codenode/writer.py:129-137 | succeeds exactly when the traversal raises nothing, with the concatenated chunks; otherwise the exception, augmented under the corrected debug patch |
| Writing.RenderToString | codenode/writer.py:57-82 | a fresh writer's `dumps` is the rendering of the single-node tree from the given depth |
| Debug.Window | codenode/debug.py:16 | the buffer never holds more than eight items |
| Debug.WindowAppend | codenode/debug.py:24 | appending to the bounded deque of a window gives the window of the extended history |
| Debug.NextWindow | codenode/debug.py:21-25 | after one more item the buffer holds the last eight items pulled, in order |
| Debug.DebugIterator.constructor | codenode/debug.py:12-16 | nothing yielded yet, empty buffer |
| Debug.DebugIterator.Next | codenode/debug.py:21-25 | yields the wrapped items in order; the counter grows by one and the buffer takes the item; exhaustion changes nothing |
| Debug.DebugIterator.CurrentItem | codenode/debug.py:27-29 | the last item yielded, or None before the first |
| Debug.Augment | codenode/debug.py:94-100 | the same exception kind with one argument that starts with the joined original arguments and the stack header |
| Joining.Interleaved | codenode_utilities/joined.py:42-48 | n items with separators between them have length 2n-1 |
| Joining.InterleavedSlots | codenode_utilities/joined.py:42-48 | items sit at the even positions in order, separators at the odd ones |
| Joining.JoinedNodes | codenode_utilities/joined.py:37-48 | no items gives exactly `[start]`; n items give 2n+1 nodes |
| Joining.JoinedSlots | codenode_utilities/joined.py:40-48 | start first, end last, each item once in order, a separator only between consecutive items |
| Joining.Joined | codenode_utilities/joined.py:37-48 | the generator's loop yields exactly the joined sequence |
| Joining.NextSlots | codenode_utilities/joined.py:43-48 | each round yields the next item, then a separator or, after the last, the end |
| Joining.InterleavedLines | codenode_utilities/joined.py:42-48 | strings joined by newlines and ended by a newline render as newline-terminated lines |
| Joining.JoinedRendersLines | codenode_utilities/joined.py:7 | with the defaults (start `''`, newline separator and end) joined strings render as one line each |
| Lines.AddPrefix | codenode_utilities/prefixer.py:124-125 | every line gains the prefix, count and order unchanged |
| Lines.ScanInvariant | codenode_utilities/prefixer.py:78-91 | the completed lines plus the pending text reproduce the input; no line holds a line break |
| Lines.SplitLinesRoundTrip | codenode_utilities/prefixer.py:124 | terminating the split lines reproduces the text, with a final newline ensured |
| Lines.SplitLinesInverse | codenode_utilities/prefixer.py:124 | splitting newline-terminated break-free lines gives them back |
| Lines.ScanNoBreak | codenode_utilities/prefixer.py:88-89 | text without a line break only extends the pending line |
| Lines.ScanLine | codenode_utilities/prefixer.py:81-87 | a line break completes the pending line |
| Prefixing.FindBreak | codenode_utilities/prefixer.py:81 | `chunk.find('\n')`: -1 exactly when there is no break, else the first break |
| Prefixing.YieldLinesAsWritten | codenode_utilities/prefixer.py:78-91 | each chunk is split at its first break only, as the source does |
| Prefixing.AsWrittenAgrees | codenode_utilities/prefixer.py:78-91 | when no chunk holds two breaks the source's lines are the lines of the concatenated chunks |
| Prefixing.AsWrittenKeepsBreak | codenode_utilities/prefixer.py:81-87 | the single chunk `"a\nb\nc"` yields `["a", "b\nc"]`, not its three lines |
| Prefixing.YieldLines | codenode_utilities/prefixer.py:78-91 | the lines yielded are exactly the lines of the concatenated chunks, without their breaks; a non-empty tail is the last line |
| Prefixing.FeedChunk | codenode_utilities/prefixer.py:81-89 | consuming a chunk keeps the buffer and lines equal to the scan of everything read |
| Prefixing.Prefixed | codenode_utilities/prefixer.py:120-126 | one `line(prefix + l)` per line of the dumped text |
| Prefixing.PrefixedRenders | codenode_utilities/prefixer.py:120-126 | the prefixed nodes render each prefixed line indented and newline-terminated, keeping the depth |
| Prefixing.EmptyPrefixReproduces | codenode_utilities/prefixer.py:124-125 | with an empty prefix at depth 0 the rendering reproduces the dumped text |
| Prefixing.PrefixedIter | codenode_utilities/prefixer.py:143-148 | built on the corrected `yield_lines`, `prefixer_iter` gives the same nodes as `prefixer` on the concatenated chunks |
| Prefixing.PrefixedIterAsWritten | codenode_utilities/prefixer.py:143-148 | as written: one prefixed line per line that `yield_lines` as written cuts |
| Prefixing.PrefixedIterAsWrittenAgrees | codenode_utilities/prefixer.py:143-148 | when no chunk holds two breaks, `prefixer_iter` as written gives the nodes of `prefixer` |
| Prefixing.PrefixedIterAsWrittenKeepsBreak | codenode_utilities/prefixer.py:81-87 | on the chunk `"a\nb\nc"`, `prefixer_iter` as written prefixes two lines, the second holding a break, where `prefixer` prefixes three |
| Suffixing.MaxLength | codenode_utilities/suffixer.py:23 | the maximum bounds every line's length and is reached by one of them |
| Suffixing.SuffixLines | codenode_utilities/suffixer.py:24-29 | five nodes per line |
| Suffixing.Suffixed | codenode_utilities/suffixer.py:21-29 | fails with ValueError exactly when there are no lines; otherwise five nodes per line |
| Suffixing.SuffixLineRenders | codenode_utilities/suffixer.py:24-29 | each line renders as indentation, text, padding, suffix, newline |
| Suffixing.PaddedAligned | codenode_utilities/suffixer.py:23-28 | every padded line keeps its text, pads with spaces up to the width, then ends with the suffix |
| Suffixing.RepeatSpaces | codenode_utilities/suffixer.py:27 | the padding is spaces only, of the requested non-negative length |
| Suffixing.SuffixLinesText | codenode_utilities/suffixer.py:24-29 | the rendered text is every padded line, indented and newline-terminated |
| Suffixing.SuffixedRenders | codenode_utilities/suffixer.py:21-29 | with at least one line, every suffix sits in the column after the longest line |
| Transforming.Transform | codenode_utilities/node_transformer.py:14-21 | a leaf maps to the single item `func(leaf)`; an iterable maps to a sequence of the same length |
| Transforming.MapNodes | codenode_utilities/node_transformer.py:18-19 | the i-th output is the function of the i-th input |
| Transforming.LeafNodesAppend | codenode_utilities/node_transformer.py:18-19 | the leaves of a concatenation are the leaves of the parts |
| Transforming.RenderLeaves | codenode_utilities/node_transformer.py:13-22 | a tree renders like the sequence of its leaves |
| Transforming.TransformLeaves | codenode_utilities/node_transformer.py:13-22 | the transform applies `func` to each leaf, in order, and to nothing else |
| Transforming.TransformRenders | codenode_utilities/node_transformer.py:13-22 | a transformed tree renders like the mapped leaves |
| Transforming.TransformedLeaves | codenode_utilities/node_transformer.py:13-22 | the leaves of a transformed tree are the mapped leaves |
| Transforming.LeafSingleton | codenode_utilities/node_transformer.py:15-21 | a leaf is its own only leaf; an iterable's leaves are its items' leaves |
| Transforming.IdentityTransform | codenode_utilities/node_transformer.py:13-22 | the identity transform does not change the rendering |
| Transforming.LeavesAreLeaves | codenode_utilities/node_transformer.py:15-16 | leaves are not descended into again |
| Partitioned.Sections | codenode_utilities/partitioned_node.py:44-49 | header, indent, body, dedent, footer: two more nodes than the three parts |
| Partitioned.SectionsShape | codenode_utilities/partitioned_node.py:44-49 | the body is wrapped by exactly one indent and one dedent |
| Partitioned.SectionsRender | codenode_utilities/partitioned_node.py:44-49 | the header renders at the depth, the body one deeper, the footer one shallower than where the body ended |
| Partitioned.IndentedPart | codenode_utilities/partitioned_node.py:46-48 | indent, body, dedent, footer render the body one level deeper and the footer back |
| Partitioned.IndentedBody | codenode_utilities/partitioned_node.py:44-49 | a body of net depth change 0 renders one level deeper and the node's net depth change is 0 |
| Partitioned.PartitionedNode.constructor | codenode_utilities/partitioned_node.py:19-20 | a node starts with no children |
| Partitioned.PartitionedNode.AsNode | codenode_utilities/partitioned_node.py:25-49 | iterating the node yields the header, then one indent, the children in order, one dedent, and the footer, each at its position |
| Partitioned.PartitionedNode.AddChild | codenode_utilities/partitioned_node.py:51-59 | appends exactly one child and returns it |
| Partitioned.PartitionedNode.AddChildren | codenode_utilities/partitioned_node.py:61-69 | appends all nodes in order and returns the argument |
| Partitioned.PartitionedNode.Dump | codenode_utilities/partitioned_node.py:71-95 | writes the node's rendering with the given indentation, newline and depth |
| Partitioned.PartitionedNode.Dumps | codenode_utilities/partitioned_node.py:97-121 | returns the node's rendering with the given indentation, newline and depth |
| Utility.FindFrom | functionality/utility.py:6 | `str.find`: the first occurrence from `start`, or -1 when there is none |
| Utility.SplitFrom | functionality/utility.py:5-13 | at least one piece is always produced |
| Utility.ISplit | functionality/utility.py:1-13 | the loop yields exactly the pieces between leftmost non-overlapping separators |
| Utility.SplitStep | functionality/utility.py:7-9 | yielding the piece before a separator and resuming after it keeps what remains to be yielded |
| Utility.SplitLast | functionality/utility.py:10-13 | with no separator left, the rest of the string is the last piece |
| Utility.JoinSplit | functionality/utility.py:5-13 | joining the pieces with the separator gives the string back |
| Utility.PiecesFree | functionality/utility.py:6-8 | no piece contains the separator |
| Utility.PiecesCount | functionality/utility.py:6-13 | there is one piece more than there are leftmost non-overlapping separators |
| Utility.SkipUnmatched | functionality/utility.py:6 | positions without a match add nothing to the separator count |
| Utility.ISplitSpec | functionality/utility.py:1-13 | the join round-trip, separator-free pieces and the piece count for the whole string |
| CodeTree.Nodes | codenode/base/nodes/codenode.py:23-24 | the children as items, in order |
| CodeTree.ArgStringIsOneJoin | codenode/python/nodes/function_definition.py:21-28 | the argument string is the positional and `k=v` arguments joined by `', '`, with a separator between the groups only when both are non-empty |
| CodeTree.PlainTotal | codenode/base/nodes/codenode.py:20-32 | a plain node yields its children in order and nothing else |
| CodeTree.BodyLineTotal | codenode/base/nodes/line.py:4-11 | a `Line` yields its content only |
| CodeTree.HeaderLineTotal | codenode/node.py:68-75 | a `Line` of the `Node` layer yields its content, then its children |
| CodeTree.PyFunctionTotal | codenode/python/nodes/function_definition.py:17-37 | one `@d` per decorator in order, then `def name(args):`, then the children or a single `Pass()` |
| CodeTree.BranchTotals | codenode/python/nodes/conditional.py:7-35 | `if c:`, `elif c:` and `else:` headers, then the children or a single `Pass()` |
| CodeTree.ConditionalTotal | codenode/python/nodes/conditional.py:59-68 | the `if` node when set, the `elif` nodes in order, the `else` node when set |
| CodeTree.CppFunctionTotal | codenode/cpp/nodes/function_definition.py:13-30 | signature and `{`, then the children, then `}` |
| CodeTree.NestedSmaller | codenode/base/writer.py:22-25 | every node `total()` yields is smaller than its parent, so the writers terminate |
| CodeTree.RankSumBound | codenode/base/writer.py:22-25 | a child's size is at most the size of all the children |
| CodeTree.Pending | codenode/base/nodes/codenode.py:65-68 | what `walk`'s stack will still yield |
| CodeTree.PendingAppend | codenode/base/nodes/codenode.py:65-68 | the top part of the stack is walked before the part below it |
| CodeTree.PendingIsReversedPostOrder | codenode/base/nodes/codenode.py:65-68 | the walk order is the reversed post-order of the stacked subtrees |
| CodeTree.PopPush | codenode/base/nodes/codenode.py:66-68 | popping the top and pushing its children yields the top first and keeps the rest |
| CodeTree.SubtreeSmaller | codenode/base/nodes/codenode.py:59-68 | a node reached by the walk is no larger than the walked forest, so the root is never among its descendants |
| CodeTree.Reverse | codenode/base/nodes/codenode.py:65-68 | reversal keeps length and multiset |
| CodeTree.ReverseAppend | codenode/base/nodes/codenode.py:65-68 | reversing a concatenation reverses and swaps the parts |
| CodeTree.PostOrderSnoc | codenode/base/nodes/codenode.py:65-68 | post-order of a forest with one more tree appends that tree's post-order |
| CodeTree.WalkStack | codenode/base/nodes/codenode.py:65-68 | the stack loop yields exactly what is pending on the initial stack |
| CodeTree.Walk | codenode/base/nodes/codenode.py:59-68 | self first only when asked for, then every descendant once in reversed post-order, the last child's subtree first |
| CodeNodes.Coerce | codenode/base/nodes/codenode.py:34-38 | a string becomes a childless `Line` that yields it; a node is kept |
| CodeNodes.CoerceAll | codenode/base/nodes/codenode.py:43-45 | the i-th argument's coercion is the i-th child added |
| CodeNodes.StringChildIsLine | codenode/base/nodes/codenode.py:34-38 | adding a string to a plain node adds one `Line` at the end of its output |
| CodeNodes.CodeNode.constructor | codenode/base/nodes/codenode.py:8-11 | a new node has no children |
| CodeNodes.CodeNode.AddChild | codenode/base/nodes/codenode.py:34-38 | appends exactly one coerced child and changes nothing else |
| CodeNodes.CodeNode.AddChildren | codenode/base/nodes/codenode.py:43-45 | appends every argument, coerced, in order |
| CodeNodes.CodeNode.Call | codenode/base/nodes/codenode.py:70-72 | adds every argument in order and returns the node itself |
| CodeNodes.CodeNode.Walk | codenode/base/nodes/codenode.py:59-68 | self only when asked for, then every descendant in reversed post-order |
| CodeNodes.CodeNode.AddDecorator | codenode/python/nodes/function_definition.py:14-15 | appends exactly one decorator |
| CodeNodes.CodeNode.AddIf | codenode/python/nodes/conditional.py:46-48 | replaces any previous `if` branch and returns the new one |
| CodeNodes.CodeNode.AddElif | codenode/python/nodes/conditional.py:50-53 | appends a new `elif` branch after the others and returns it |
| CodeNodes.CodeNode.AddElse | codenode/python/nodes/conditional.py:55-57 | replaces any previous `else` branch and returns the new one |
| NodeLayer.CoerceArg | codenode/node.py:27-34 | a string becomes a `Line`, a list or tuple a fresh plain node of the same length, a node is kept |
| NodeLayer.CoerceArgs | codenode/node.py:31-34 | one coerced node per element |
| NodeLayer.CoerceArgsAt | codenode/node.py:31-34 | the i-th coerced element is the coercion of the i-th element |
| NodeLayer.CoerceArgsAppend | codenode/node.py:39-41 | coercing a concatenation coerces the parts |
| NodeLayer.GroupChildren | codenode/node.py:31-34 | a list's children are its elements coerced one by one, at every level of nesting |
| NodeLayer.Node.constructor | codenode/node.py:10-11 | a new node has no children and offset 1 |
| NodeLayer.Node.AddChild | codenode/node.py:27-37 | appends exactly one coerced child and returns it |
| NodeLayer.Node.AddChildren | codenode/node.py:39-41 | appends every argument, coerced, in order |
| NodeLayer.Node.Call | codenode/node.py:63-65 | adds every argument in order and returns the node itself |
| NodeLayer.Node.Walk | codenode/node.py:52-61 | the same traversal as the `CodeNode` walk |
| TreeWriter.TotalBelow | codenode/base/writer.py:22-25 | every node among a node's items is smaller than it |
| TreeWriter.ItemLinesAppend | codenode/base/writer.py:12-28 | the pairs of concatenated items are the pairs of each part |
| TreeWriter.ChildItems | codenode/base/writer.py:22-25 | children are traversed at the parent's depth plus its `child_depth_offset` |
| TreeWriter.Shift | codenode/base/writer.py:41-42 | every pair's depth moves by the same amount |
| TreeWriter.NodeLinesShift | codenode/base/writer.py:22-25 | starting deeper shifts every yielded depth by the same amount |
| TreeWriter.ThreeParts | codenode/base/writer.py:12-28 | header, body and footer items are traversed in turn |
| TreeWriter.TextItems | codenode/base/writer.py:27-28 | text items are yielded at the depth of the node that produced them |
| TreeWriter.PassItem | codenode/base/writer.py:22-25 | the `Pass()` body renders `pass` one offset deeper |
| TreeWriter.DecoratorItems | codenode/python/nodes/function_definition.py:17-19 | the decorator lines are yielded at the function's depth, in order |
| TreeWriter.CppFunctionLines | codenode/cpp/nodes/function_definition.py:13-30 | signature and `{` at the function's depth, children one offset deeper, `}` back at its depth |
| TreeWriter.ChildlessPyFunctionLines | codenode/python/nodes/function_definition.py:17-37 | decorators and the `def` line at the function's depth, `pass` one offset deeper |
| TreeWriter.ChildlessPyFunctionTotal | codenode/python/nodes/function_definition.py:17-37 | a childless function yields its decorators, its `def` line, then `Pass()` |
| TreeWriter.PushLines | codenode/base/writer.py:23-25 | a pushed entry's pairs come before everything pending below it |
| TreeWriter.TextStep | codenode/base/writer.py:27-28 | a text item is yielded once at its entry's depth |
| TreeWriter.NestedStep | codenode/base/writer.py:22-25 | a nested node is pushed at depth plus offset; what is pending stays the same |
| TreeWriter.Round | codenode/base/writer.py:12-28 | one loop round yields a prefix of what is pending and decreases the measure |
| TreeWriter.NodeToLines | codenode/base/writer.py:9-28 | the root's items at depth 0, every text item once, depth-first, paired with its node's depth |
| TreeWriter.DumpChunks | codenode/base/writer.py:41-44 | three chunks per pair |
| TreeWriter.WritePairs | codenode/base/writer.py:41-44 | writes indentation, line and `'\n'` for each pair, in order |
| TreeWriter.Dump | codenode/base/writer.py:30-44 | the stream receives three chunks per pair, indented to depth plus base depth, with four spaces by default |
| TreeWriter.Dumps | codenode/base/writer.py:46-54 | the text `dump` writes into a fresh buffer |
| TreeWriter.IndentedLines | codenode/base/writer.py:42-43 | each pair as the indent repeated to its depth, then its line |
| TreeWriter.DumpText | codenode/base/writer.py:41-44 | the dumped text is each indented line followed by exactly one newline |
| TreeWriter.DumpLines | codenode/base/writer.py:41-44 | splitting the dumped text gives back one indented line per pair |
| TreeWriter.BaseDepth | codenode/base/writer.py:30-44 | a base depth is the same as starting the traversal that much deeper |
| TreeWriter.ShiftedChunks | codenode/base/writer.py:42 | the base depth shifts every pair's depth |
| EarlyLayer.PlainYieldsNothing | base/nodes/codenode.py:21-33 | a plain node's `total` is empty and it renders no lines, children or not; its offset is 1 |
| EarlyLayer.ItemLinesAppend | base/codenode_writer.py:9-28 | the lines of concatenated items are the lines of each part |
| EarlyLayer.TotalLines | base/codenode_writer.py:9-28 | a node's lines are those of its header, body and footer items |
| EarlyLayer.PushFrame | base/codenode_writer.py:23-25 | pushing adds the stored offset to the running depth and puts the entry's lines first |
| EarlyLayer.PopStep | base/codenode_writer.py:18-21 | popping subtracts the stored amount from the running depth |
| EarlyLayer.StrStep | base/codenode_writer.py:28 | a value is yielded as the indent repeated to the running depth, then the value |
| EarlyLayer.SubStep | base/codenode_writer.py:23-26 | a nested node is pushed storing the parent's offset and the running depth grows by it |
| EarlyLayer.Round | base/codenode_writer.py:12-28 | the depth stays the initial depth plus the stored offsets, output plus pending stays fixed, the measure decreases |
| EarlyLayer.NodeToLines | base/codenode_writer.py:9-28 | every value as the indent at its node's depth then the value; the counter ends at the initial depth |
| EarlyLayer.DumpChunks | base/codenode_writer.py:30-33 | two chunks per line |
| EarlyLayer.DumpChunksSnoc | base/codenode_writer.py:31-33 | each line is written, then `'\n'` |
| EarlyLayer.Dump | base/codenode_writer.py:30-33 | the stream receives each line followed by `'\n'` |
| EarlyLayer.Dumps | base/codenode_writer.py:35-38 | the text `dump` writes into a fresh buffer |
| EarlyLayer.DumpText | base/codenode_writer.py:30-33 | the dumped text is every line terminated by exactly one newline |
| EarlyLayer.CodeNode.constructor | base/nodes/codenode.py:11-12 | a new node has no children and offset 1 |
| EarlyLayer.CodeNode.AddChild | base/nodes/codenode.py:35-36 | appends exactly one child, uncoerced, and does not change what the node yields |

## Left out

- I/O: streams are `Writing.Stream` objects that record the chunks they receive. `StringIO` and file sinks are not modelled beyond that.
- Laziness: generators are modelled by the sequences they produce. A traversal that stops early is stated as "the chunks before the exception stand".
- Duck typing: a node is a closed datatype. An unsupported value is `Other(display)`, where `display` is the text `str()` and the f-string give for it.
- The subclass relation returned by `auto_coerce_patch` and `debug_patch` is a configuration of one `Writer` class (`coercion`, `debugReport`), not a Python subclass.
- The text `print_writer_stack` writes (codenode/debug.py:43-63) is not modelled: it depends on `pprint` formatting, and as written it is discarded, because the function raises before the handler reads the buffer. Its effect on the stack and the exception it raises are modelled (`Writing.Writer.PrintWriterStackAsWritten`). `mask_globals` (codenode/debug.py:72-81) rewrites function globals and is left out.
- `Writing.Writer.ProcessNode` models the corrected debug handler: the report is a parameter of the writer, a function of the stack. As written, the handler raises the not-subscriptable TypeError instead (`Writing.Writer.AsWrittenProcessNode`).
- `Writing.Writer.Dump` and `Writing.Writer.Dumps` report the exception through the corrected debug handler. As written, a debug-patched writer raises the not-subscriptable TypeError on any failure.
- `Prefixing.PrefixedIter` is built on the corrected `yield_lines`. As written it differs from `prefixer` on a chunk with two breaks (`Prefixing.PrefixedIterAsWritten`).
- DebugIterator is modelled on its own and never wraps a writer's cursor. `mask_globals` replaces `iter` only in the globals of `dump` and `process_node`, and neither calls `iter`. `WriterStack.push`, which does call it, keeps the original globals.
- `str.splitlines` splits on `'\n'` only (`Lines.SplitLines`). The other terminators of Python's set are not modelled. Lengths are sequence lengths, not Unicode widths.
- Exceptions raised midway through a generator: chunks yielded before an exception are written, and the exception ends the traversal. A partial `process_node` is never observable here, because every branch yields at most one chunk.
- The old node layers work on tree values: children are stored by value, so aliasing (the same node added to two parents) and mutating a child after adding it are not modelled.
- One `CodeTree.Tree` datatype serves both `codenode/base` `CodeNode` and `codenode/node.py` `Node`. Their differences live in `Kind` (`BodyLine` versus `HeaderLine`) and in the coercion of `add_child`.
- `Pass()` is modelled as the node yielding `pass` (codenode/python/nodes/pass_statement.py is not part of this model).
- `Block` is not part of this model. A `Conditional`'s `child_depth_offset` is a field of the tree, given by whoever builds it.
- `CodeNodeWriter.dump` takes its default indent from `codenode.util.constants` (codenode/base/writer.py:38), a module that is not part of this model. `TreeWriter.DefaultIndent` assumes the four-space value that codenode/__init__.py:8 gives `default_indent`.
- Every node of the earliest layer (base/nodes/codenode.py) is given by the header, body and footer items its overrides yield, as fixed lists.
- `Utility.ISplit` requires a non-empty separator. With `sep == ''` the source's loop never advances `start` and does not terminate.
- `Partitioned.PartitionedNode.Dump`/`Dumps`: the `debug` flag is not forwarded. The model always renders with the plain writer.
- `RenderingLaws.DefaultScenario`/`AlteredScenario` state the chunk lists. Their concatenation is the text the test compares.
- `EarlyLayer.NodeToLines`: the final value of the running depth is a ghost out-parameter.
- `Engine.Repeat` states only the non-positive case in its contract. Its length for positive counts is proved in `Suffixing.RepeatSpaces` for the spaces used as padding.
- The documentation generators, build and publishing scripts, demos, settings and constant modules, the single-literal templates, the file-writing nodes, and the superseded `python/nodes` snapshot are outside this model.

## Findings

| source | as written | input that shows it | evidently intended | confidence | as-written member | corrected member |
|---|---|---|---|---|---|---|
| codenode_utilities/prefixer.py:81-87 | `yield_lines` splits each chunk at its first `'\n'` only; the rest, with any further breaks, goes back into the buffer and is yielded later as one line | the single chunk `"a\nb\nc"` yields `["a", "b\nc"]` | the lines of the concatenated chunks, `["a", "b", "c"]`, as `prefixer` gets from `splitlines` | not executed | Prefixing.AsWrittenKeepsBreak | Prefixing.YieldLines |
| codenode/debug.py:65 | `print_writer_stack` first iterates `writer.stack`, which drains it, then evaluates `writer.stack[-1]`; a `WriterStack` has no `__getitem__`, so this raises a TypeError inside the handler, and the augmented exception of codenode/debug.py:99-100 is never raised | a debug-patched writer on the tree `Other(d)` raises `'WriterStack' object is not subscriptable` instead of the TypeError naming `d` | the original exception re-raised with the stack report appended to its message | not executed | Writing.Writer.AsWrittenProcessNode | Writing.Writer.ProcessNode |
