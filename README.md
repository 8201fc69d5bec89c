# vue-sfc-parser, modelled in Dafny

This project models the core of `vue-sfc-parser`. The parser splits a Vue
single-file component (`*.vue`) into its top-level blocks: one `template`,
one `script`, a list of `style` blocks and a list of custom blocks. The diff
watcher remembers the last parse of each file and reports which of those
segments changed.

The modules follow the source files:

- `Utils` (`utils.dfy`) models `src/utils.ts`:
  - `no` and `identity`;
  - `makeMap`, as a method that fills the key table in a loop, with JavaScript's `str.split(',')` written out as `Split` and `toLowerCase` as `LowerAscii`;
  - `equalsRecord`.
- `SfcParser` (`sfc_parser.dfy`) models `src/sfc-parser.ts`.
  - The handlers `start`, `checkAttrs` and `end` are imperative methods over mutable `BlockRaw` objects. The block stored in the descriptor is the same object that `end` later changes.
  - `ParseComponent` runs the handlers over the tokenizer's events.
  - It is proved against a pure left fold, `Run`/`Extract`. The fold also records which descriptor slot `currentBlock` points to.
  - The predicate `Holds` ties the objects in the heap to the fold's values.
- `SfcParserProperties` (`sfc_parser_properties.dfy`) holds what the fold promises:
  - depth bookkeeping;
  - which blocks land where, and in what order;
  - the attribute fold and the derived fields;
  - content is the text between the tags;
  - a block that no closing tag ends, self-closing or not, keeps empty content;
  - the offsets of the examples in the test files.
- `Sfc` (`sfc.dfy`) models `src/index.ts`:
  - `SFCBlock` with `calcGlobalOffset`/`calcGlobalRange`;
  - the wrapping `parseComponent`;
  - the block equality that `hasDiff` calls.
- `DiffWatcher` (`diff_watcher.dfy`) models `src/diff-watcher.ts`:
  - `SFCDiffWatcher`, with `add`/`remove`/`diff` over the map `prevMap`;
  - `SFCDiff`, with `template`/`script`/`styles`/`customBlocks`, `hasDiff` and `hasListDiff`.

The tokenizer `parseHTML` is not part of this model. Its output is the input `seq<Event>`:

- `Open(tag, attrs, unary, s, e)` for an opening tag;
- `Close(tag, s, e)` for a closing tag.

`s` is the offset of the tag's first character and `e` the offset just past its last. What the tokenizer guarantees is the predicate `WellFormed`: each tag lies inside the text, and tags come in document order. The parser itself is total, as in the source. Only the lemmas about offsets and content require `WellFormed`.

A callback is modelled by what it is handed. The segment methods return `Some(payload)` when the source calls the callback and `None` when it does not, together with the diff itself for chaining.

Where the code's behaviour is surprising, the model follows the code:

- `hasListDiff` seeds an `&&`-reduce with `true`. So lists of equal length are reported only when every index pair differs, and two empty lists are always reported. A reader might expect "some pair differs"; the code reports a change only when every pair differs. `HasListDiff`, `EmptyListsDiffer` and `PartialChangeUnreported` state the code's behaviour.
- `customBlocks(name, cb)` does not use `name`. It compares and passes on the whole list.
- `diff` requires an earlier `add` for the file (`assert` in the source). The variant in which a first `diff` always fires, which is what the tests exercise, is not part of the source.
- `hasDiff` calls `prev.equals(curr)`, but `SFCBlock` defines no `equals`. `SFCBlock.Equals` compares every field, with the attribute records compared by `equalsRecord`. It is proved to be equality of the blocks' values.
- A special tag not written in lower case, such as `STYLE` or `Template`, passes `isSpecialTag`, which lower-cases the tag. It then fails the exact `tag === 'style'` test, so `sfc[tag] = currentBlock` stores it under its own spelling. The model keeps such blocks in the descriptor's `extra` map. `mapValues` in `src/index.ts` wraps them too.

## Model

| member | source | states |
|---|---|---|
| `Utils.No` | src/utils.ts:1 | always false |
| `Utils.Identity` | src/utils.ts:3 | returns its argument |
| `Utils.LowerAscii` | src/utils.ts:14 | `toLowerCase` on ASCII: same length, no capital left, each capital replaced by its small letter, every other character kept |
| `Utils.KeyTest.Test` | src/utils.ts:14 | the closure `makeMap` returns: without lower-casing a key is found iff it is an item; a key without capitals is found iff it is an item in either mode |
| `Utils.Split` | src/utils.ts:10 | `str.split(',')`: at least one piece, none containing a comma |
| `Utils.JoinSplit` | src/utils.ts:10 | joining the pieces with commas gives the string back |
| `Utils.SplitJoin` | src/utils.ts:10 | comma-free pieces joined with commas split back into exactly those pieces |
| `Utils.LowerAsciiOfLower` | src/utils.ts:14 | lower-casing a string without capitals leaves it unchanged |
| `Utils.MakeMap` | src/utils.ts:5-15 | the table holds exactly the comma-separated items and remembers `expectsLowerCase`; the lookup is true iff the key, lower-cased when asked for (never the items), is one of them |
| `Utils.EqualsRecord` | src/utils.ts:17-31 | false whenever the key counts differ |
| `Utils.EqualsRecordIsEquality` | src/utils.ts:21-30 | equal key counts plus every key of `a` in `b` with the same value is exactly map equality |
| `Utils.EqualsRecordReflexiveSymmetric` | src/utils.ts:28-30 | hence the record comparison is reflexive and symmetric |
| `SfcParser.SpecialTagNamesItems` | src/sfc-parser.ts:13 | the list `'script,style,template'` splits into exactly those three names |
| `SfcParser.SpecialTagTest` | src/sfc-parser.ts:13-15 | the `makeMap` table answers exactly `IsSpecialTag`, i.e. whether the lower-cased tag is `script`, `style` or `template` |
| `SfcParser.IsSpecialTag` | src/sfc-parser.ts:13-15 | the lower-cased tag is `script`, `style` or `template`; in particular those three names are special |
| `SfcParser.FoldAttrs` | src/sfc-parser.ts:70-76 | the `attrs` record of a block: its keys are exactly the names of the tag's attributes |
| `SfcParser.LastIndex` | src/sfc-parser.ts:70-76 | the index of the last attribute of a given name, or -1 when there is none |
| `SfcParser.CheckAttrsValue` | src/sfc-parser.ts:95-110 | the `checkAttrs` loop leaves type, content, attrs, start and end untouched |
| `SfcParser.NewBlock` | src/sfc-parser.ts:64-79 | a new top-level block has the tag as type, the folded attrs, empty content and `start == end == tagEnd`; a non-special tag gets no lang/src/scoped/module |
| `SfcParser.Slice` | src/sfc-parser.ts:115 | `content.slice(from, to)` is the substring when `from <= to <= length` |
| `SfcParser.BlockRaw.constructor` | src/sfc-parser.ts:65-77 | the object literal: empty content, `start == end == tagEnd`, the attribute fold |
| `SfcParser.CheckAttrs` | src/sfc-parser.ts:95-110 | the loop over the attributes sets the block to the fold `CheckAttrsValue` of its old value |
| `SfcParser.Start` | src/sfc-parser.ts:57-93 | at depth 0 a fresh block is stored at the slot `SlotFor` names and becomes the only occupant of it; deeper tags change nothing but depth; a non-self-closing tag adds one to depth |
| `SfcParser.End` | src/sfc-parser.ts:112-119 | at depth 1 with a current block, that block gets `end = tagStart` and the sliced content and `currentBlock` becomes null; depth always drops by one |
| `SfcParser.OpenStep` | src/sfc-parser.ts:57-93 | the pure `start`: a self-closing tag leaves depth alone and any other adds one; at depth 0 the new block is stored at its slot, which becomes current; below the top level the descriptor and `currentBlock` are unchanged |
| `SfcParser.CloseStep` | src/sfc-parser.ts:112-119 | the pure `end`: depth drops by one; at depth 1 the current block is stored closed at its slot and nothing is current; at any other depth, or with nothing current, the descriptor and `currentBlock` are unchanged |
| `SfcParser.Run` | src/sfc-parser.ts:44-127 | the state after the handlers have seen the events in order; depth moves by at most one per event |
| `SfcParser.Extract` | src/sfc-parser.ts:44-127 | the descriptor `parseComponent` returns, the value every parser property is stated on; it holds at most one style or custom block per event |
| `SfcParser.OnOpen` | src/sfc-parser.ts:57-93 | `start` keeps the heap in step with the fold's open step |
| `SfcParser.OnClose` | src/sfc-parser.ts:112-119 | `end` keeps the heap in step with the fold's close step |
| `SfcParser.Dispatch` | src/sfc-parser.ts:121-124 | each event handed to `start` or `end` keeps the heap in step with one fold step |
| `SfcParser.ParseComponent` | src/sfc-parser.ts:44-127 | the descriptor built in place holds exactly `Extract(text, events)` |
| `SfcParserProperties.RunDepth` | src/sfc-parser.ts:90-118 | `depth` is the number of non-self-closing opening tags minus the number of closing tags seen |
| `SfcParserProperties.StrayCloseGoesNegative` | src/sfc-parser.ts:118 | a stray closing tag takes depth below zero |
| `SfcParserProperties.Shape` | src/sfc-parser.ts:78-88 | `styles` and `customBlocks` hold the top-level `style` and non-special blocks in opening order, each keeping its own type; `template`/`script` hold the last top-level one; mixed-case special tags are stored under their spelling |
| `SfcParserProperties.NestedOpenAddsNothing` | src/sfc-parser.ts:64-89 | an opening tag below the top level adds no block and changes no block |
| `SfcParserProperties.CustomBlocksPlain` | src/sfc-parser.ts:78-88 | a custom block is of a non-special type and never has lang, src, scoped or module |
| `SfcParserProperties.FoldAttrsLastWins` | src/sfc-parser.ts:70-76 | a name is in `attrs` iff some attribute has it, and its value is the last such attribute's value, with the empty value becoming `true` |
| `SfcParserProperties.DerivedFields` | src/sfc-parser.ts:95-110 | `lang`/`src` are the last such attribute's raw value, `module` its value or `true`, `scoped` is set iff some attribute is named `scoped`; otherwise the field is unchanged |
| `SfcParserProperties.SpecialBlockFields` | src/sfc-parser.ts:78-79 | a special top-level block has exactly the derived fields its attributes ask for, and none otherwise |
| `SfcParserProperties.ContentIsText` | src/sfc-parser.ts:113-117 | for well-formed events every block has `start <= end <= length` and its content is exactly the text between them |
| `SfcParserProperties.CurrentIsStored` | src/sfc-parser.ts:65-88 | the block `currentBlock` points to is always stored in the descriptor |
| `SfcParserProperties.CloseFixesBlock` | src/sfc-parser.ts:113-117 | a close at depth 1 sets the current block's `end` to the closing tag's start and its content to the text in between, and leaves depth 0 with no current block |
| `SfcParserProperties.UnclosedBlockStaysEmpty` | src/sfc-parser.ts:64-119 | a top-level block that no closing tag at depth 1 ends, and whose slot no later top-level tag takes, keeps the value `start` gave it: empty content and `start == end` |
| `SfcParserProperties.UnaryBlockStaysEmpty` | src/sfc-parser.ts:64-92 | a self-closing top-level block is never closed: until another top-level block takes its slot it keeps empty content and `start == end` |
| `SfcParserProperties.TemplateHi` | test/diff-watcher.spec.ts:14 | `<template>Hi</template>` gives a template with content `Hi`, start 10, end 12 |
| `SfcParserProperties.Shifted` | test/diff-watcher.spec.ts:112-124 | `<script></script><template>Hi</template>` gives a template with start 27 and end 29 and an empty script |
| `SfcParserProperties.Positions` | test/index.spec.ts:46-58 | the offset test's template starts at 15 and its script, with `lang` `ts`, at 70; the nested `p` adds no block |
| `Sfc.SFCBlock.constructor` | src/index.ts:19-24 | every field of the raw block is copied unchanged |
| `Sfc.SFCBlock.Equals` | src/diff-watcher.ts:75 | the field-wise comparison with `equalsRecord` on attrs holds iff the two blocks have equal values |
| `Sfc.SFCBlock.CalcGlobalOffset` | src/index.ts:26-28 | a content offset as a file offset; an offset from 0 to the block's length lands between `start` and `end` |
| `Sfc.SFCBlock.CalcGlobalRange` | src/index.ts:30-32 | both ends moved likewise; the range keeps its width and stays between `start` and `end` when it lies inside the content |
| `Sfc.GlobalOffsetReadsContent` | src/index.ts:26-28 | `start + offset` names, in the file, the character at `offset` in the content |
| `Sfc.GlobalRangeReadsContent` | src/index.ts:30-32 | a content range maps to a file range of the same width holding the same characters |
| `Sfc.WrapOne` | src/index.ts:47 | a null slot stays null; a block is wrapped with its value unchanged |
| `Sfc.WrapList` | src/index.ts:45 | the wrapped list has the same length and order and the same values |
| `Sfc.WrapExtra` | src/index.ts:43 | every further key is wrapped with its value unchanged |
| `Sfc.ParseComponent` | src/index.ts:42-50 | the wrapped descriptor holds exactly `Extract(code, events)` |
| `Sfc.ModifiedPosition` | test/index.spec.ts:46-58 | in the offset test, local offset 7 of the template is 22 and local offset 5 of the script is 75 |
| `DiffWatcher.HasDiff` | src/diff-watcher.ts:70-76 | two missing blocks: no change; exactly one missing: change; two present: change iff their values differ |
| `DiffWatcher.AllDiffer` | src/diff-watcher.ts:83-85 | the `&&`-reduce seeded with `true` over the first `n` pairs holds iff every one of those pairs differs |
| `DiffWatcher.HasListDiff` | src/diff-watcher.ts:78-86 | lists of different lengths differ; lists of equal length differ iff every index pair differs |
| `DiffWatcher.SFCDiff.constructor` | src/diff-watcher.ts:28 | keeps the two descriptors |
| `DiffWatcher.SFCDiff.Template` | src/diff-watcher.ts:30-38 | calls back iff `hasDiff` of the templates, with the current template, and returns the same diff |
| `DiffWatcher.SFCDiff.Script` | src/diff-watcher.ts:40-48 | calls back iff `hasDiff` of the scripts, with the current script, and returns the same diff |
| `DiffWatcher.SFCDiff.Styles` | src/diff-watcher.ts:50-58 | calls back iff `hasListDiff` of the style lists, with the current list, and returns the same diff |
| `DiffWatcher.SFCDiff.CustomBlocks` | src/diff-watcher.ts:60-68 | calls back iff `hasListDiff` of the whole custom block lists, with the whole current list, whatever `name` is, and returns the same diff |
| `DiffWatcher.SFCDiffWatcher.constructor` | src/diff-watcher.ts:5 | starts with no files |
| `DiffWatcher.SFCDiffWatcher.Add` | src/diff-watcher.ts:7-9 | stores and returns the parse of the content under the file name; every other entry is unchanged |
| `DiffWatcher.SFCDiffWatcher.Remove` | src/diff-watcher.ts:11-13 | deletes only that file name, and does nothing when it is absent |
| `DiffWatcher.SFCDiffWatcher.Diff` | src/diff-watcher.ts:15-24 | needs the file to have been added; pairs the old entry with the new parse, which replaces it; every other entry is unchanged |
| `DiffWatcher.SingletonListDiff` | src/diff-watcher.ts:78-86 | for one block per list the list diff is the block diff |
| `DiffWatcher.EmptyListsDiffer` | src/diff-watcher.ts:83-85 | two empty lists are reported as changed |
| `DiffWatcher.PartialChangeUnreported` | src/diff-watcher.ts:83-85 | one changed block next to an unchanged one goes unreported |
| `DiffWatcher.SameValuesQuiet` | src/diff-watcher.ts:70-86 | descriptors with the same values: template and script do not fire, and a list fires iff it is empty |
| `DiffWatcher.DiffTwice` | src/diff-watcher.ts:15-24 | diffing a file twice with the same text fires neither template nor script the second time |
| `DiffWatcher.MovedTemplateFires` | test/diff-watcher.spec.ts:112-125 | a template that only moved fires, with its new start 27 and end 29 |
| `DiffWatcher.VanishedTemplateFires` | test/diff-watcher.spec.ts:102-110 | a template that vanished fires and is handed null |

## Left out

- The tokenizer `parseHTML` (src/sfc-parser.ts:8, 121-124) is not part of this model. Its output is an input event sequence, and its guarantees are the predicate `WellFormed`.
- `mapValues` from lodash (src/index.ts:1, 43) is a foreign call. It is modelled as wrapping each slot: `WrapOne`, `WrapList` and `WrapExtra`.
- Node's `assert` in `diff` is modelled as a `requires`. The model has no exception behaviour.
- The variant of the watcher in which a first `diff` without `add` always fires is exercised by the tests. It is not in the source, so it is not modelled.
- Callbacks and `this`-chaining: a callback is its payload (`Some`/`None`). Chaining returns the same `SFCDiff` object.
- `splitRE`, `replaceRE` and the `options` parameter (src/sfc-parser.ts:11-12, 46) are unused and not modelled.
- Some JavaScript object-model details are not modelled:
  - `key in b` walking the prototype chain;
  - `hasOwnProperty`;
  - the order of `Object.keys`;
  - `===` identity on blocks.
  Records are finite maps.
- `SFCBlock`'s constructor copies the fields listed in `SFCBlockRaw` one by one. It does not loop over `Object.keys`. Optional fields are `Option` values, and absent `scoped` is `false`.
- `toLowerCase` is modelled for ASCII letters only.
- Offsets count `char`s, not UTF-16 code units.
- `SfcParserProperties.UnaryBlockStaysEmpty`: the source promises this for every self-closing top-level block. The lemma assumes that no later top-level tag is stored in the same slot. A later `template`, `script` or mixed-case tag of the same name does replace the block, and styles and custom blocks always get a new slot.
