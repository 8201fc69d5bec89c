/**
 * The block extractor of src/sfc-parser.ts.
 *
 * The tokenizer `parseHTML` is not part of this model: its output is the
 * sequence of `Event`s it reports, in document order. `ParseComponent` is
 * the imperative handler pair `start`/`end` run over that sequence, with the
 * closure variables `depth` and `currentBlock` and the descriptor `sfc`; the
 * block objects are mutable and the one stored in the descriptor is the one
 * later closed. It is proved against the pure left fold `Run`, which tracks
 * the descriptor slot that `currentBlock` refers to.
 */
module SfcParser {
  import opened Utils

  /** One attribute as the tokenizer reports it; a valueless attribute has
      the empty string as value. */
  datatype Attribute = Attribute(name: string, value: string)

  /** The two callbacks of the tokenizer: an opening tag with its attributes,
      whether it is self-closing, and the offsets of its first character
      (`s`) and just past its last (`e`); and a closing tag likewise. */
  datatype Event =
    | Open(tag: string, attrs: seq<Attribute>, unary: bool, s: nat, e: nat)
    | Close(tag: string, s: nat, e: nat)

  /** The fields of an `SFCBlockRaw`; an absent optional field is `None`
      (`scoped`, whose only value is `true`, is absent when false). */
  datatype BlockValue = BlockValue(
    blockType: string,
    content: string,
    attrs: map<string, AttrValue>,
    start: nat,
    end: nat,
    lang: Option<string>,
    src: Option<string>,
    scoped: bool,
    moduleValue: Option<AttrValue>)

  /** The value of an `SFCDescriptorRaw`. `extra` holds the keys other than
      `template` and `script` that `sfc[tag] = currentBlock` writes for a
      special tag that is not spelled in lower case. */
  datatype DescValue = DescValue(
    template: Option<BlockValue>,
    script: Option<BlockValue>,
    styles: seq<BlockValue>,
    customBlocks: seq<BlockValue>,
    extra: map<string, BlockValue>)

  const EmptyDescriptor := DescValue(None, None, [], [], map[])

  // ---------------------------------------------------------------------
  // Tag names
  // ---------------------------------------------------------------------

  /** The list `isSpecialTag` is built from. */
  const SpecialTagNames := "script,style,template"

  /** `isSpecialTag`: the tag, lower-cased, names a template, script or
      style block; in particular the three lower-case names are special. */
  predicate IsSpecialTag(tag: string): (r: bool)
    ensures tag in {"script", "style", "template"} ==> r
  {
    assert tag in {"script", "style", "template"} ==> LowerAscii(tag) == tag;
    LowerAscii(tag) in {"script", "style", "template"}
  }

  lemma SpecialTagNamesItems()
    ensures Split(SpecialTagNames) == ["script", "style", "template"]
  {
    var items := ["script", "style", "template"];
    assert Join(items[2..]) == "template";
    assert Join(items[1..]) == "style,template";
    assert Join(items) == SpecialTagNames;
    SplitJoin(items);
  }

  /** `isSpecialTag` is `makeMap('script,style,template', true)`: the table
      built from the list answers exactly `IsSpecialTag`. */
  method SpecialTagTest() returns (test: KeyTest)
    ensures forall tag :: test.Test(tag) <==> IsSpecialTag(tag)
  {
    test := MakeMap(SpecialTagNames, true);
    SpecialTagNamesItems();
    SpecialTable(test);
  }

  /** A lower-casing table of the three names answers `IsSpecialTag`. */
  lemma SpecialTable(test: KeyTest)
    requires test.expectsLowerCase
    requires forall item :: item in test.items <==> item in ["script", "style", "template"]
    ensures forall tag :: test.Test(tag) <==> IsSpecialTag(tag)
  {
  }

  // ---------------------------------------------------------------------
  // Attributes
  // ---------------------------------------------------------------------

  /** `value || true`: the empty string becomes `true`. */
  function OrTrue(value: string): AttrValue
  {
    if value == "" then True else Str(value)
  }

  /** The index of the last attribute called `name`, or -1. */
  function LastIndex(attrs: seq<Attribute>, name: string): (k: int)
    ensures -1 <= k < |attrs|
    ensures k >= 0 ==> attrs[k].name == name
    ensures forall j :: k < j < |attrs| ==> attrs[j].name != name
  {
    if attrs == [] then -1
    else if attrs[|attrs| - 1].name == name then |attrs| - 1
    else LastIndex(attrs[..|attrs| - 1], name)
  }

  /** The `attrs.reduce` of the opening tag: `m[name] := value || true`,
      left to right. */
  function FoldAttrs(attrs: seq<Attribute>): (m: map<string, AttrValue>)
    ensures m.Keys == set i | 0 <= i < |attrs| :: attrs[i].name
  {
    if attrs == [] then map[]
    else
      var a := attrs[|attrs| - 1];
      FoldAttrs(attrs[..|attrs| - 1])[a.name := OrTrue(a.value)]
  }

  /** One pass of the `checkAttrs` loop body. */
  function CheckAttr(b: BlockValue, a: Attribute): BlockValue
  {
    var b1 := if a.name == "lang" then b.(lang := Some(a.value)) else b;
    var b2 := if a.name == "scoped" then b1.(scoped := true) else b1;
    var b3 := if a.name == "module" then b2.(moduleValue := Some(OrTrue(a.value))) else b2;
    if a.name == "src" then b3.(src := Some(a.value)) else b3
  }

  /** The whole `checkAttrs` loop, as a left fold: it only ever touches the
      four derived fields. */
  function CheckAttrsValue(b: BlockValue, attrs: seq<Attribute>): (r: BlockValue)
    ensures r.blockType == b.blockType && r.content == b.content && r.attrs == b.attrs
    ensures r.start == b.start && r.end == b.end
  {
    if attrs == [] then b
    else CheckAttr(CheckAttrsValue(b, attrs[..|attrs| - 1]), attrs[|attrs| - 1])
  }

  /** The literal object `start` builds for a tag opened at depth 0. */
  function Opened(tag: string, attrs: seq<Attribute>, tagEnd: nat): BlockValue
  {
    BlockValue(tag, "", FoldAttrs(attrs), tagEnd, tagEnd, None, None, false, None)
  }

  /** The block a top-level opening tag contributes: special tags also get
      their derived fields. */
  function NewBlock(tag: string, attrs: seq<Attribute>, tagEnd: nat): (b: BlockValue)
    ensures b.blockType == tag && b.attrs == FoldAttrs(attrs)
    ensures b.content == "" && b.start == tagEnd && b.end == tagEnd
    ensures !IsSpecialTag(tag) ==> b.lang.None? && b.src.None? && !b.scoped && b.moduleValue.None?
  {
    if IsSpecialTag(tag) then CheckAttrsValue(Opened(tag, attrs, tagEnd), attrs)
    else Opened(tag, attrs, tagEnd)
  }

  // ---------------------------------------------------------------------
  // Descriptor slots
  // ---------------------------------------------------------------------

  /** What `currentBlock` points to: a place in the descriptor. */
  datatype Slot =
    | TemplateSlot
    | ScriptSlot
    | StyleSlot(index: nat)
    | CustomSlot(index: nat)
    | ExtraSlot(key: string)

  /** Where `start` puts the block of a top-level tag. */
  function SlotFor(sfc: DescValue, tag: string): Slot
  {
    if IsSpecialTag(tag) then
      if tag == "style" then StyleSlot(|sfc.styles|)
      else if tag == "template" then TemplateSlot
      else if tag == "script" then ScriptSlot
      else ExtraSlot(tag)
    else CustomSlot(|sfc.customBlocks|)
  }

  function Get(sfc: DescValue, slot: Slot): Option<BlockValue>
  {
    match slot
    case TemplateSlot => sfc.template
    case ScriptSlot => sfc.script
    case StyleSlot(i) => if i < |sfc.styles| then Some(sfc.styles[i]) else None
    case CustomSlot(i) => if i < |sfc.customBlocks| then Some(sfc.customBlocks[i]) else None
    case ExtraSlot(k) => if k in sfc.extra then Some(sfc.extra[k]) else None
  }

  /** Stores `b` at `slot`: a list slot one past the end appends. */
  function Put(sfc: DescValue, slot: Slot, b: BlockValue): DescValue
  {
    match slot
    case TemplateSlot => sfc.(template := Some(b))
    case ScriptSlot => sfc.(script := Some(b))
    case StyleSlot(i) =>
      if i < |sfc.styles| then sfc.(styles := sfc.styles[i := b])
      else if i == |sfc.styles| then sfc.(styles := sfc.styles + [b])
      else sfc
    case CustomSlot(i) =>
      if i < |sfc.customBlocks| then sfc.(customBlocks := sfc.customBlocks[i := b])
      else if i == |sfc.customBlocks| then sfc.(customBlocks := sfc.customBlocks + [b])
      else sfc
    case ExtraSlot(k) => sfc.(extra := sfc.extra[k := b])
  }

  // ---------------------------------------------------------------------
  // The handlers, as a pure fold
  // ---------------------------------------------------------------------

  /** `content.slice(from, to)` for offsets that are not negative: both are
      clamped to the length, and a reversed range is empty. */
  function Slice(text: string, from: nat, to: nat): (r: string)
    ensures from <= to <= |text| ==> r == text[from..to]
  {
    var a := if from <= |text| then from else |text|;
    var b := if to <= |text| then to else |text|;
    if a < b then text[a..b] else ""
  }

  /** The closure state: the descriptor, `depth`, and where `currentBlock`
      points. */
  datatype ParseState = ParseState(sfc: DescValue, depth: int, current: Option<Slot>)

  const Initial := ParseState(EmptyDescriptor, 0, None)

  /** The `start` handler: a self-closing tag leaves `depth` alone and any
      other adds one; at depth 0 the new block can be read back at its slot,
      which becomes current, and below the top level nothing else changes. */
  function OpenStep(st: ParseState, tag: string, attrs: seq<Attribute>, unary: bool, tagEnd: nat): (r: ParseState)
    ensures r.depth == if unary then st.depth else st.depth + 1
    ensures st.depth == 0 ==>
      r.current == Some(SlotFor(st.sfc, tag)) && Get(r.sfc, SlotFor(st.sfc, tag)) == Some(NewBlock(tag, attrs, tagEnd))
    ensures st.depth != 0 ==> r.sfc == st.sfc && r.current == st.current
  {
    var depth := if unary then st.depth else st.depth + 1;
    if st.depth == 0 then
      var slot := SlotFor(st.sfc, tag);
      ParseState(Put(st.sfc, slot, NewBlock(tag, attrs, tagEnd)), depth, Some(slot))
    else
      st.(depth := depth)
  }

  /** The block `end` leaves behind: it ends where the closing tag starts. */
  function Closed(b: BlockValue, text: string, tagStart: nat): BlockValue
  {
    b.(end := tagStart, content := Slice(text, b.start, tagStart))
  }

  /** The `end` handler: `depth` always drops by one; at depth 1 the
      current block is closed where it is stored and nothing is current
      any more; otherwise the descriptor and `currentBlock` are unchanged. */
  function CloseStep(st: ParseState, text: string, tagStart: nat): (r: ParseState)
    ensures r.depth == st.depth - 1
    ensures st.depth == 1 && st.current.Some? && Get(st.sfc, st.current.value).Some? ==>
      r.current.None? &&
      Get(r.sfc, st.current.value) == Some(Closed(Get(st.sfc, st.current.value).value, text, tagStart))
    ensures !(st.depth == 1 && st.current.Some?) ==> r.sfc == st.sfc && r.current == st.current
  {
    if st.depth == 1 && st.current.Some? && Get(st.sfc, st.current.value).Some? then
      var b := Get(st.sfc, st.current.value).value;
      ParseState(Put(st.sfc, st.current.value, Closed(b, text, tagStart)), st.depth - 1, None)
    else
      st.(depth := st.depth - 1)
  }

  function Step(st: ParseState, text: string, ev: Event): ParseState
  {
    match ev
    case Open(tag, attrs, unary, _, e) => OpenStep(st, tag, attrs, unary, e)
    case Close(_, s, _) => CloseStep(st, text, s)
  }

  /** The state after the handlers have seen `events`, in order: `depth`
      moves by at most one per event. */
  function Run(text: string, events: seq<Event>): (st: ParseState)
    ensures -|events| <= st.depth <= |events|
  {
    if events == [] then Initial
    else Step(Run(text, events[..|events| - 1]), text, events[|events| - 1])
  }

  /** Storing a block adds at most one entry to the lists, and none when
      the slot is already taken. */
  lemma PutSize(sfc: DescValue, slot: Slot, b: BlockValue)
    ensures |Put(sfc, slot, b).styles| + |Put(sfc, slot, b).customBlocks| <= |sfc.styles| + |sfc.customBlocks| + 1
    ensures Get(sfc, slot).Some? ==>
      |Put(sfc, slot, b).styles| + |Put(sfc, slot, b).customBlocks| == |sfc.styles| + |sfc.customBlocks|
  {
  }

  /** Every listed block comes from an event of its own. */
  lemma {:induction false} RunSize(text: string, events: seq<Event>)
    ensures |Run(text, events).sfc.styles| + |Run(text, events).sfc.customBlocks| <= |events|
  {
    if events != [] {
      var st, ev := Run(text, events[..|events| - 1]), events[|events| - 1];
      RunSize(text, events[..|events| - 1]);
      match ev
      case Open(tag, attrs, _, _, e) =>
        PutSize(st.sfc, SlotFor(st.sfc, tag), NewBlock(tag, attrs, e));
      case Close(_, s, _) =>
        if st.depth == 1 && st.current.Some? && Get(st.sfc, st.current.value).Some? {
          PutSize(st.sfc, st.current.value, Closed(Get(st.sfc, st.current.value).value, text, s));
        }
    }
  }

  /** What `parseComponent` returns for `text` when the tokenizer reports
      `events`: at most one style or custom block per event. */
  function Extract(text: string, events: seq<Event>): (d: DescValue)
    ensures |d.styles| + |d.customBlocks| <= |events|
  {
    RunSize(text, events);
    Run(text, events).sfc
  }

  // ---------------------------------------------------------------------
  // The handlers, in place
  // ---------------------------------------------------------------------

  /** An `SFCBlockRaw` object: `end` and `content` are assigned after the
      object has been stored in the descriptor. */
  class BlockRaw {
    var blockType: string
    var content: string
    var attrs: map<string, AttrValue>
    var start: nat
    var end: nat
    var lang: Option<string>
    var src: Option<string>
    var scoped: bool
    var moduleValue: Option<AttrValue>

    function Value(): BlockValue
      reads this
    {
      BlockValue(blockType, content, attrs, start, end, lang, src, scoped, moduleValue)
    }

    /** The object literal of `start`: empty content, `start == end ==
        tagEnd`, and the attributes folded into a record. */
    constructor (tag: string, attrList: seq<Attribute>, tagEnd: nat)
      ensures Value() == Opened(tag, attrList, tagEnd)
    {
      blockType := tag;
      content := "";
      start := tagEnd;
      end := tagEnd;
      attrs := FoldAttrs(attrList);
      lang := None;
      src := None;
      scoped := false;
      moduleValue := None;
    }
  }

  /** `checkAttrs`: sets the derived fields of `block` from the attributes,
      one attribute at a time. */
  method CheckAttrs(block: BlockRaw, attrs: seq<Attribute>)
    modifies block
    ensures block.Value() == CheckAttrsValue(old(block.Value()), attrs)
  {
    for i := 0 to |attrs|
      invariant block.Value() == CheckAttrsValue(old(block.Value()), attrs[..i])
    {
      assert attrs[..i + 1][..i] == attrs[..i];
      var attr := attrs[i];
      if attr.name == "lang" {
        block.lang := Some(attr.value);
      }
      if attr.name == "scoped" {
        block.scoped := true;
      }
      if attr.name == "module" {
        block.moduleValue := Some(OrTrue(attr.value));
      }
      if attr.name == "src" {
        block.src := Some(attr.value);
      }
    }
    assert attrs[..|attrs|] == attrs;
  }

  /** The `sfc` object: its slots hold references to block objects. */
  datatype DescriptorRaw = DescriptorRaw(
    template: BlockRaw?,
    script: BlockRaw?,
    styles: seq<BlockRaw>,
    customBlocks: seq<BlockRaw>,
    extra: map<string, BlockRaw>)

  function Objects(sfc: DescriptorRaw): set<BlockRaw>
  {
    (if sfc.template == null then {} else {sfc.template})
    + (if sfc.script == null then {} else {sfc.script})
    + (set b | b in sfc.styles)
    + (set b | b in sfc.customBlocks)
    + sfc.extra.Values
  }

  /** The descriptor after `b` is stored at `slot`, as `start` stores it. */
  function PutRaw(sfc: DescriptorRaw, slot: Slot, b: BlockRaw): DescriptorRaw
  {
    match slot
    case TemplateSlot => sfc.(template := b)
    case ScriptSlot => sfc.(script := b)
    case StyleSlot(_) => sfc.(styles := sfc.styles + [b])
    case CustomSlot(_) => sfc.(customBlocks := sfc.customBlocks + [b])
    case ExtraSlot(k) => sfc.(extra := sfc.extra[k := b])
  }

  /** `sfc` has the shape of `v`: the same slots filled, the same lengths
      and the same extra keys. */
  ghost predicate Shaped(sfc: DescriptorRaw, v: DescValue)
  {
    && (sfc.template == null <==> v.template.None?)
    && (sfc.script == null <==> v.script.None?)
    && |sfc.styles| == |v.styles|
    && |sfc.customBlocks| == |v.customBlocks|
    && sfc.extra.Keys == v.extra.Keys
  }

  /** Every object of `sfc` other than `b` holds the value of `v` at its
      place; `b` itself is not read. */
  ghost predicate HoldsAway(sfc: DescriptorRaw, v: DescValue, b: BlockRaw?)
    reads Objects(sfc) - {b}
  {
    && Shaped(sfc, v)
    && (sfc.template != null && sfc.template != b ==> sfc.template.Value() == v.template.value)
    && (sfc.script != null && sfc.script != b ==> sfc.script.Value() == v.script.value)
    && (forall i :: 0 <= i < |sfc.styles| && sfc.styles[i] != b ==> sfc.styles[i].Value() == v.styles[i])
    && (forall i :: 0 <= i < |sfc.customBlocks| && sfc.customBlocks[i] != b ==>
          sfc.customBlocks[i].Value() == v.customBlocks[i])
    && (forall k :: k in sfc.extra && sfc.extra[k] != b ==> sfc.extra[k].Value() == v.extra[k])
  }

  /** The objects of `sfc` hold exactly the values of `v`. */
  ghost predicate Holds(sfc: DescriptorRaw, v: DescValue)
    reads Objects(sfc)
  {
    HoldsAway(sfc, v, null)
  }

  /** `b` sits at `slot` of `sfc` and nowhere else. */
  ghost predicate OnlyAt(sfc: DescriptorRaw, slot: Slot, b: BlockRaw)
  {
    && (sfc.template == b <==> slot == TemplateSlot)
    && (sfc.script == b <==> slot == ScriptSlot)
    && (forall i :: 0 <= i < |sfc.styles| ==> (sfc.styles[i] == b <==> slot == StyleSlot(i)))
    && (forall i :: 0 <= i < |sfc.customBlocks| ==> (sfc.customBlocks[i] == b <==> slot == CustomSlot(i)))
    && (forall k :: k in sfc.extra ==> (sfc.extra[k] == b <==> slot == ExtraSlot(k)))
    && (slot.StyleSlot? ==> slot.index < |sfc.styles|)
    && (slot.CustomSlot? ==> slot.index < |sfc.customBlocks|)
    && (slot.ExtraSlot? ==> slot.key in sfc.extra)
  }

  /** `slot` is where `start` can put a new block: a singular slot, a key,
      or one past the end of a list. */
  ghost predicate Placeable(v: DescValue, slot: Slot)
  {
    match slot
    case StyleSlot(i) => i == |v.styles|
    case CustomSlot(i) => i == |v.customBlocks|
    case _ => true
  }

  lemma PlaceStyle(sfc: DescriptorRaw, v: DescValue, i: nat, b: BlockRaw)
    requires Holds(sfc, v) && i == |v.styles| && b !in Objects(sfc)
    ensures Holds(PutRaw(sfc, StyleSlot(i), b), Put(v, StyleSlot(i), b.Value()))
    ensures OnlyAt(PutRaw(sfc, StyleSlot(i), b), StyleSlot(i), b)
  {
    var sfc' := PutRaw(sfc, StyleSlot(i), b);
    var v' := Put(v, StyleSlot(i), b.Value());
    assert forall j :: 0 <= j < |sfc.styles| ==> sfc.styles[j] in Objects(sfc);
    assert forall j :: 0 <= j < |sfc.styles| ==> sfc'.styles[j] == sfc.styles[j] && v'.styles[j] == v.styles[j];
  }

  lemma PlaceCustom(sfc: DescriptorRaw, v: DescValue, i: nat, b: BlockRaw)
    requires Holds(sfc, v) && i == |v.customBlocks| && b !in Objects(sfc)
    ensures Holds(PutRaw(sfc, CustomSlot(i), b), Put(v, CustomSlot(i), b.Value()))
    ensures OnlyAt(PutRaw(sfc, CustomSlot(i), b), CustomSlot(i), b)
  {
    var sfc' := PutRaw(sfc, CustomSlot(i), b);
    var v' := Put(v, CustomSlot(i), b.Value());
    assert forall j :: 0 <= j < |sfc.customBlocks| ==> sfc.customBlocks[j] in Objects(sfc);
    assert forall j :: 0 <= j < |sfc.customBlocks| ==>
      sfc'.customBlocks[j] == sfc.customBlocks[j] && v'.customBlocks[j] == v.customBlocks[j];
  }

  lemma PlaceExtra(sfc: DescriptorRaw, v: DescValue, k: string, b: BlockRaw)
    requires Holds(sfc, v) && b !in Objects(sfc)
    ensures Holds(PutRaw(sfc, ExtraSlot(k), b), Put(v, ExtraSlot(k), b.Value()))
    ensures OnlyAt(PutRaw(sfc, ExtraSlot(k), b), ExtraSlot(k), b)
  {
    assert forall j :: j in sfc.extra ==> sfc.extra[j] in Objects(sfc);
  }

  lemma PlaceSingle(sfc: DescriptorRaw, v: DescValue, slot: Slot, b: BlockRaw)
    requires Holds(sfc, v) && (slot == TemplateSlot || slot == ScriptSlot) && b !in Objects(sfc)
    ensures Holds(PutRaw(sfc, slot, b), Put(v, slot, b.Value()))
    ensures OnlyAt(PutRaw(sfc, slot, b), slot, b)
  {
    assert forall j :: 0 <= j < |sfc.styles| ==> sfc.styles[j] in Objects(sfc);
    assert forall j :: 0 <= j < |sfc.customBlocks| ==> sfc.customBlocks[j] in Objects(sfc);
    assert forall j :: j in sfc.extra ==> sfc.extra[j] in Objects(sfc);
  }

  /** Storing a block that is not in the descriptor yet keeps the
      correspondence, and the block is then the sole occupant of its slot. */
  lemma PlaceKeepsHolds(sfc: DescriptorRaw, v: DescValue, slot: Slot, b: BlockRaw)
    requires Holds(sfc, v)
    requires Placeable(v, slot)
    requires b !in Objects(sfc)
    ensures Holds(PutRaw(sfc, slot, b), Put(v, slot, b.Value()))
    ensures OnlyAt(PutRaw(sfc, slot, b), slot, b)
  {
    match slot
    case StyleSlot(i) => PlaceStyle(sfc, v, i, b);
    case CustomSlot(i) => PlaceCustom(sfc, v, i, b);
    case ExtraSlot(k) => PlaceExtra(sfc, v, k, b);
    case _ => PlaceSingle(sfc, v, slot, b);
  }

  lemma SlotForPlaceable(v: DescValue, tag: string)
    ensures Placeable(v, SlotFor(v, tag))
  {
  }

  lemma HoldsEverywhereElse(sfc: DescriptorRaw, v: DescValue, b: BlockRaw)
    requires Holds(sfc, v)
    ensures HoldsAway(sfc, v, b)
  {
  }

  /** Once the current block has been closed in place, the descriptor holds
      the fold's state with that one slot replaced. */
  lemma CloseKeepsHolds(sfc: DescriptorRaw, v: DescValue, slot: Slot, b: BlockRaw)
    requires HoldsAway(sfc, v, b)
    requires OnlyAt(sfc, slot, b)
    ensures Holds(sfc, Put(v, slot, b.Value()))
  {
  }

  lemma PutRawObjects(sfc: DescriptorRaw, slot: Slot, b: BlockRaw)
    ensures Objects(PutRaw(sfc, slot, b)) <= Objects(sfc) + {b}
  {
    var sfc' := PutRaw(sfc, slot, b);
    match slot
    case StyleSlot(_) =>
      assert forall x :: x in sfc'.styles ==> x in sfc.styles || x == b;
    case CustomSlot(_) =>
      assert forall x :: x in sfc'.customBlocks ==> x in sfc.customBlocks || x == b;
    case ExtraSlot(k) =>
      assert forall x :: x in sfc'.extra.Values ==> x in sfc.extra.Values || x == b;
    case _ =>
  }

  /** The `start` handler: a tag opened at depth 0 becomes a fresh block,
      stored where `SlotFor` says and made the current block; every opening
      tag that is not self-closing deepens the nesting. */
  method Start(sfc: DescriptorRaw, depth: int, currentBlock: BlockRaw?, ghost v: DescValue,
               tag: string, attrs: seq<Attribute>, unary: bool, tagEnd: nat)
    returns (sfc': DescriptorRaw, depth': int, currentBlock': BlockRaw?)
    requires Holds(sfc, v)
    ensures depth' == if unary then depth else depth + 1
    ensures depth != 0 ==> sfc' == sfc && currentBlock' == currentBlock
    ensures depth == 0 ==>
      && currentBlock' != null && fresh(currentBlock')
      && Holds(sfc', Put(v, SlotFor(v, tag), NewBlock(tag, attrs, tagEnd)))
      && OnlyAt(sfc', SlotFor(v, tag), currentBlock')
      && Objects(sfc') <= Objects(sfc) + {currentBlock'}
  {
    sfc', currentBlock' := sfc, currentBlock;
    if depth == 0 {
      var b := new BlockRaw(tag, attrs, tagEnd);
      assert b !in Objects(sfc);
      ghost var placed := SlotFor(v, tag);
      if IsSpecialTag(tag) {
        CheckAttrs(b, attrs);
        if tag == "style" {
          sfc' := sfc.(styles := sfc.styles + [b]);
          assert placed.StyleSlot?;
          assert sfc' == PutRaw(sfc, placed, b);
        } else if tag == "template" {
          sfc' := sfc.(template := b);
          assert placed == TemplateSlot;
          assert sfc' == PutRaw(sfc, placed, b);
        } else if tag == "script" {
          sfc' := sfc.(script := b);
          assert placed == ScriptSlot;
          assert sfc' == PutRaw(sfc, placed, b);
        } else {
          sfc' := sfc.(extra := sfc.extra[tag := b]);
          assert placed == ExtraSlot(tag);
          assert sfc' == PutRaw(sfc, placed, b);
        }
      } else {
        sfc' := sfc.(customBlocks := sfc.customBlocks + [b]);
        assert placed.CustomSlot?;
        assert sfc' == PutRaw(sfc, placed, b);
      }
      assert b.Value() == NewBlock(tag, attrs, tagEnd);
      SlotForPlaceable(v, tag);
      PlaceKeepsHolds(sfc, v, placed, b);
      PutRawObjects(sfc, placed, b);
      currentBlock' := b;
    }
    depth' := if unary then depth else depth + 1;
  }

  /** The `end` handler: at depth 1 the current block ends where the closing
      tag starts and takes the text between as its content; the nesting
      always gets one shallower. */
  method End(sfc: DescriptorRaw, depth: int, currentBlock: BlockRaw?, ghost v: DescValue,
             ghost slot: Option<Slot>, text: string, tagStart: nat)
    returns (depth': int, currentBlock': BlockRaw?)
    requires Holds(sfc, v)
    requires currentBlock == null <==> slot.None?
    requires currentBlock != null ==> OnlyAt(sfc, slot.value, currentBlock)
    modifies currentBlock
    ensures depth' == depth - 1
    ensures depth == 1 && currentBlock != null ==>
      && currentBlock' == null
      && Holds(sfc, Put(v, slot.value, Closed(old(currentBlock.Value()), text, tagStart)))
    ensures !(depth == 1 && currentBlock != null) ==>
      currentBlock' == currentBlock && Holds(sfc, v)
    ensures currentBlock != null && !(depth == 1) ==> unchanged(currentBlock)
  {
    currentBlock' := currentBlock;
    if depth == 1 && currentBlock != null {
      HoldsEverywhereElse(sfc, v, currentBlock);
      currentBlock.end := tagStart;
      currentBlock.content := Slice(text, currentBlock.start, currentBlock.end);
      CloseKeepsHolds(sfc, v, slot.value, currentBlock);
      currentBlock' := null;
    }
    depth' := depth - 1;
  }

  /** The closure state of `parseComponent` mirrors the fold's state `st`:
      the descriptor holds its values, `depth` agrees, and `currentBlock`
      is the block at the slot the fold points to. `made` covers every
      block object made so far. */
  ghost predicate Mirrors(sfc: DescriptorRaw, depth: int, currentBlock: BlockRaw?, slot: Option<Slot>,
                          made: set<BlockRaw>, st: ParseState)
    reads made
  {
    && Objects(sfc) <= made
    && Holds(sfc, st.sfc)
    && depth == st.depth
    && slot == st.current
    && (currentBlock == null <==> slot.None?)
    && (currentBlock != null ==> OnlyAt(sfc, slot.value, currentBlock) && currentBlock in made)
  }

  /** An opening tag, handed to `start`. */
  method OnOpen(sfc: DescriptorRaw, depth: int, currentBlock: BlockRaw?, ghost slot: Option<Slot>,
                ghost made: set<BlockRaw>, ghost st: ParseState,
                tag: string, attrs: seq<Attribute>, unary: bool, tagEnd: nat)
    returns (sfc': DescriptorRaw, depth': int, currentBlock': BlockRaw?, ghost slot': Option<Slot>,
             ghost made': set<BlockRaw>)
    requires Mirrors(sfc, depth, currentBlock, slot, made, st)
    ensures made <= made' && fresh(made' - made)
    ensures Mirrors(sfc', depth', currentBlock', slot', made', OpenStep(st, tag, attrs, unary, tagEnd))
  {
    sfc', depth', currentBlock' := Start(sfc, depth, currentBlock, st.sfc, tag, attrs, unary, tagEnd);
    if depth == 0 {
      slot' := Some(SlotFor(st.sfc, tag));
      made' := made + {currentBlock'};
    } else {
      slot', made' := slot, made;
    }
  }

  /** A closing tag, handed to `end`. */
  method OnClose(sfc: DescriptorRaw, depth: int, currentBlock: BlockRaw?, ghost slot: Option<Slot>,
                 ghost made: set<BlockRaw>, ghost st: ParseState, text: string, tagStart: nat)
    returns (depth': int, currentBlock': BlockRaw?, ghost slot': Option<Slot>)
    requires Mirrors(sfc, depth, currentBlock, slot, made, st)
    modifies made
    ensures Mirrors(sfc, depth', currentBlock', slot', made, CloseStep(st, text, tagStart))
  {
    if currentBlock != null {
      assert Get(st.sfc, slot.value) == Some(currentBlock.Value());
    }
    depth', currentBlock' := End(sfc, depth, currentBlock, st.sfc, slot, text, tagStart);
    slot' := if depth == 1 && currentBlock != null then None else slot;
  }

  /** The tokenizer hands each event to `start` or `end`. */
  method Dispatch(sfc: DescriptorRaw, depth: int, currentBlock: BlockRaw?, ghost slot: Option<Slot>,
                  ghost made: set<BlockRaw>, ghost st: ParseState, text: string, ev: Event)
    returns (sfc': DescriptorRaw, depth': int, currentBlock': BlockRaw?, ghost slot': Option<Slot>,
             ghost made': set<BlockRaw>)
    requires Mirrors(sfc, depth, currentBlock, slot, made, st)
    modifies made
    ensures made <= made' && fresh(made' - made)
    ensures Mirrors(sfc', depth', currentBlock', slot', made', Step(st, text, ev))
  {
    match ev
    case Open(tag, attrs, unary, _, e) =>
      sfc', depth', currentBlock', slot', made' :=
        OnOpen(sfc, depth, currentBlock, slot, made, st, tag, attrs, unary, e);
    case Close(_, s, _) =>
      sfc', made' := sfc, made;
      depth', currentBlock', slot' := OnClose(sfc, depth, currentBlock, slot, made, st, text, s);
  }

  /** `parseComponent` of src/sfc-parser.ts, with the tokenizer's events
      given: the descriptor it builds holds exactly `Extract(text, events)`. */
  method ParseComponent(text: string, events: seq<Event>) returns (sfc: DescriptorRaw)
    ensures Holds(sfc, Extract(text, events))
  {
    sfc := DescriptorRaw(null, null, [], [], map[]);
    var depth: int := 0;
    var currentBlock: BlockRaw? := null;
    ghost var slot: Option<Slot> := None;
    ghost var made: set<BlockRaw> := {};
    for i := 0 to |events|
      invariant fresh(made)
      invariant Mirrors(sfc, depth, currentBlock, slot, made, Run(text, events[..i]))
    {
      assert events[..i + 1][..i] == events[..i];
      sfc, depth, currentBlock, slot, made :=
        Dispatch(sfc, depth, currentBlock, slot, made, Run(text, events[..i]), text, events[i]);
    }
    assert events[..|events|] == events;
  }
}
