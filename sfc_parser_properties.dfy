/**
 * What `parseComponent` of src/sfc-parser.ts promises about the descriptor
 * it returns, stated on the fold `Run`/`Extract` that the imperative
 * `SfcParser.ParseComponent` is proved against.
 */
module SfcParserProperties {
  import opened Utils
  import opened SfcParser

  // ---------------------------------------------------------------------
  // Depth
  // ---------------------------------------------------------------------

  /** What one event does to the nesting depth. */
  function Delta(ev: Event): int
  {
    match ev
    case Open(_, _, unary, _, _) => if unary then 0 else 1
    case Close(_, _, _) => -1
  }

  /** The nesting depth after `evs`: the sum of the deltas. */
  function Depth(evs: seq<Event>): int
  {
    if evs == [] then 0 else Depth(evs[..|evs| - 1]) + Delta(evs[|evs| - 1])
  }

  /** `depth` counts the tags that are open: a non-self-closing opening tag
      adds one and every closing tag takes one away, matched or not. */
  lemma {:induction false} RunDepth(text: string, evs: seq<Event>)
    ensures Run(text, evs).depth == Depth(evs)
  {
    if evs != [] {
      RunDepth(text, evs[..|evs| - 1]);
    }
  }

  /** Nothing stops `depth` from going below zero on a stray closing tag. */
  lemma StrayCloseGoesNegative()
    ensures Run("", [Close("p", 0, 0)]).depth == -1
  {
    assert [Close("p", 0, 0)][..0] == [];
  }

  // ---------------------------------------------------------------------
  // Which blocks the descriptor holds
  // ---------------------------------------------------------------------

  /** The block each opening tag at depth 0 starts, in document order. */
  function TopBlocks(evs: seq<Event>): seq<BlockValue>
  {
    if evs == [] then []
    else
      var prefix, ev := evs[..|evs| - 1], evs[|evs| - 1];
      TopBlocks(prefix) +
        (if ev.Open? && Depth(prefix) == 0 then [NewBlock(ev.tag, ev.attrs, ev.e)] else [])
  }

  predicate IsStyleTag(tag: string)
  {
    tag == "style"
  }

  predicate IsCustomTag(tag: string)
  {
    !IsSpecialTag(tag)
  }

  /** A special tag not spelled exactly `script`, `style` or `template`:
      `sfc[tag] = currentBlock` stores it under its own spelling. */
  predicate IsExtraTag(tag: string)
  {
    IsSpecialTag(tag) && tag != "style" && tag != "template" && tag != "script"
  }

  /** The blocks of `bs` whose type `pick` accepts, in order. */
  function Keep(bs: seq<BlockValue>, pick: string -> bool): seq<BlockValue>
  {
    if bs == [] then []
    else
      var b := bs[|bs| - 1];
      Keep(bs[..|bs| - 1], pick) + (if pick(b.blockType) then [b] else [])
  }

  /** The last block of `bs` of type `tag`. */
  function LastWith(bs: seq<BlockValue>, tag: string): Option<BlockValue>
  {
    if bs == [] then None
    else if bs[|bs| - 1].blockType == tag then Some(bs[|bs| - 1])
    else LastWith(bs[..|bs| - 1], tag)
  }

  /** A block as `start` made it: closing sets only `end` and `content`. */
  function Header(b: BlockValue): BlockValue
  {
    b.(content := "", end := b.start)
  }

  function Headers(bs: seq<BlockValue>): (hs: seq<BlockValue>)
    ensures |hs| == |bs|
  {
    seq(|bs|, i requires 0 <= i < |bs| => Header(bs[i]))
  }

  function HeaderOf(b: Option<BlockValue>): Option<BlockValue>
  {
    if b.Some? then Some(Header(b.value)) else None
  }

  /** The descriptor `v` is laid out as the top-level blocks `tops` say. */
  ghost predicate Layout(v: DescValue, tops: seq<BlockValue>)
  {
    && Headers(v.styles) == Keep(tops, IsStyleTag)
    && Headers(v.customBlocks) == Keep(tops, IsCustomTag)
    && HeaderOf(v.template) == LastWith(tops, "template")
    && HeaderOf(v.script) == LastWith(tops, "script")
    && (forall k :: k in v.extra <==> IsExtraTag(k) && LastWith(tops, k).Some?)
    && (forall k :: k in v.extra ==> Some(Header(v.extra[k])) == LastWith(tops, k))
  }

  lemma HeaderOfNewBlock(tag: string, attrs: seq<Attribute>, tagEnd: nat)
    ensures Header(NewBlock(tag, attrs, tagEnd)) == NewBlock(tag, attrs, tagEnd)
  {
  }

  lemma HeadersAppend(bs: seq<BlockValue>, b: BlockValue)
    ensures Headers(bs + [b]) == Headers(bs) + [Header(b)]
  {
  }

  lemma HeadersReplace(bs: seq<BlockValue>, i: nat, b: BlockValue)
    requires i < |bs| && Header(b) == Header(bs[i])
    ensures Headers(bs[i := b]) == Headers(bs)
  {
  }

  lemma LastStep(bs: seq<BlockValue>, b: BlockValue, pick: string -> bool)
    ensures Keep(bs + [b], pick) == Keep(bs, pick) + (if pick(b.blockType) then [b] else [])
    ensures forall k :: LastWith(bs + [b], k) == if b.blockType == k then Some(b) else LastWith(bs, k)
  {
    assert (bs + [b])[..|bs|] == bs;
  }

  /** The layout facts that do not involve the slot the block goes to. */
  lemma OpenFacts(v: DescValue, tops: seq<BlockValue>, b: BlockValue)
    requires Layout(v, tops) && Header(b) == b
    ensures Keep(tops + [b], IsStyleTag) == Keep(tops, IsStyleTag) + (if IsStyleTag(b.blockType) then [b] else [])
    ensures Keep(tops + [b], IsCustomTag) == Keep(tops, IsCustomTag) + (if IsCustomTag(b.blockType) then [b] else [])
    ensures forall k :: LastWith(tops + [b], k) == if b.blockType == k then Some(b) else LastWith(tops, k)
  {
    LastStep(tops, b, IsStyleTag);
    LastStep(tops, b, IsCustomTag);
  }

  lemma OpenStyle(v: DescValue, tops: seq<BlockValue>, b: BlockValue)
    requires Layout(v, tops) && Header(b) == b && b.blockType == "style"
    ensures Layout(v.(styles := v.styles + [b]), tops + [b])
  {
    OpenFacts(v, tops, b);
    HeadersAppend(v.styles, b);
  }

  lemma OpenCustom(v: DescValue, tops: seq<BlockValue>, b: BlockValue)
    requires Layout(v, tops) && Header(b) == b && IsCustomTag(b.blockType)
    ensures Layout(v.(customBlocks := v.customBlocks + [b]), tops + [b])
  {
    OpenFacts(v, tops, b);
    HeadersAppend(v.customBlocks, b);
  }

  lemma OpenTemplate(v: DescValue, tops: seq<BlockValue>, b: BlockValue)
    requires Layout(v, tops) && Header(b) == b && b.blockType == "template"
    ensures Layout(v.(template := Some(b)), tops + [b])
  {
    OpenFacts(v, tops, b);
  }

  lemma OpenScript(v: DescValue, tops: seq<BlockValue>, b: BlockValue)
    requires Layout(v, tops) && Header(b) == b && b.blockType == "script"
    ensures Layout(v.(script := Some(b)), tops + [b])
  {
    OpenFacts(v, tops, b);
  }

  lemma OpenExtra(v: DescValue, tops: seq<BlockValue>, b: BlockValue)
    requires Layout(v, tops) && Header(b) == b && IsExtraTag(b.blockType)
    ensures Layout(v.(extra := v.extra[b.blockType := b]), tops + [b])
  {
    OpenFacts(v, tops, b);
    var v', tops' := v.(extra := v.extra[b.blockType := b]), tops + [b];
    assert !IsStyleTag(b.blockType) && !IsCustomTag(b.blockType);
    forall k
      ensures k in v'.extra <==> IsExtraTag(k) && LastWith(tops', k).Some?
    {
    }
    forall k | k in v'.extra
      ensures Some(Header(v'.extra[k])) == LastWith(tops', k)
    {
    }
  }

  /** A top-level opening tag adds its block where `Layout` expects it. */
  lemma OpenKeepsLayout(v: DescValue, tops: seq<BlockValue>, tag: string, attrs: seq<Attribute>, tagEnd: nat)
    requires Layout(v, tops)
    ensures Layout(Put(v, SlotFor(v, tag), NewBlock(tag, attrs, tagEnd)), tops + [NewBlock(tag, attrs, tagEnd)])
  {
    var b := NewBlock(tag, attrs, tagEnd);
    HeaderOfNewBlock(tag, attrs, tagEnd);
    if !IsSpecialTag(tag) {
      OpenCustom(v, tops, b);
    } else if tag == "style" {
      OpenStyle(v, tops, b);
    } else if tag == "template" {
      OpenTemplate(v, tops, b);
    } else if tag == "script" {
      OpenScript(v, tops, b);
    } else {
      OpenExtra(v, tops, b);
    }
  }

  /** Closing the current block changes no header. */
  lemma CloseKeepsLayout(v: DescValue, tops: seq<BlockValue>, slot: Slot, b: BlockValue, c: BlockValue)
    requires Layout(v, tops)
    requires Get(v, slot) == Some(b) && Header(c) == Header(b)
    ensures Layout(Put(v, slot, c), tops)
  {
    match slot
    case StyleSlot(i) => HeadersReplace(v.styles, i, c);
    case CustomSlot(i) => HeadersReplace(v.customBlocks, i, c);
    case _ =>
  }

  lemma {:induction false} RunLayout(text: string, evs: seq<Event>)
    ensures Layout(Run(text, evs).sfc, TopBlocks(evs))
  {
    if evs != [] {
      var prefix, ev := evs[..|evs| - 1], evs[|evs| - 1];
      var st := Run(text, prefix);
      RunLayout(text, prefix);
      RunDepth(text, prefix);
      match ev
      case Open(tag, attrs, unary, _, e) =>
        if st.depth == 0 {
          OpenKeepsLayout(st.sfc, TopBlocks(prefix), tag, attrs, e);
        } else {
          assert TopBlocks(evs) == TopBlocks(prefix);
        }
      case Close(_, s, _) =>
        assert TopBlocks(evs) == TopBlocks(prefix);
        if st.depth == 1 && st.current.Some? && Get(st.sfc, st.current.value).Some? {
          var b := Get(st.sfc, st.current.value).value;
          CloseKeepsLayout(st.sfc, TopBlocks(prefix), st.current.value, b, Closed(b, text, s));
        }
    }
  }

  /** The shape of the descriptor: `styles` and `customBlocks` hold the
      blocks of the top-level `style` and non-special tags, in opening
      order and each with its own type; `template` and `script` hold the
      last top-level block of that name; a special tag in any other
      spelling is stored under that spelling. Blocks are compared as
      `start` made them, since closing fills in `end` and `content`. */
  lemma Shape(text: string, evs: seq<Event>)
    ensures var sfc, tops := Extract(text, evs), TopBlocks(evs);
      && Headers(sfc.styles) == Keep(tops, IsStyleTag)
      && Headers(sfc.customBlocks) == Keep(tops, IsCustomTag)
      && HeaderOf(sfc.template) == LastWith(tops, "template")
      && HeaderOf(sfc.script) == LastWith(tops, "script")
      && (forall k :: k in sfc.extra <==> IsExtraTag(k) && LastWith(tops, k).Some?)
      && (forall k :: k in sfc.extra ==> Some(Header(sfc.extra[k])) == LastWith(tops, k))
  {
    RunLayout(text, evs);
  }

  /** Opening tags below the top level add no block. */
  lemma {:induction false} NestedOpenAddsNothing(text: string, evs: seq<Event>, tag: string,
                                                  attrs: seq<Attribute>, unary: bool, s: nat, e: nat)
    requires Depth(evs) != 0
    ensures Extract(text, evs + [Open(tag, attrs, unary, s, e)]) == Extract(text, evs)
    ensures TopBlocks(evs + [Open(tag, attrs, unary, s, e)]) == TopBlocks(evs)
  {
    var evs' := evs + [Open(tag, attrs, unary, s, e)];
    assert evs'[..|evs|] == evs;
    RunDepth(text, evs);
  }

  /** Custom blocks never get the derived fields. */
  lemma CustomBlocksPlain(text: string, evs: seq<Event>, i: nat)
    requires i < |Extract(text, evs).customBlocks|
    ensures var b := Extract(text, evs).customBlocks[i];
      && !IsSpecialTag(b.blockType)
      && b.lang.None? && b.src.None? && !b.scoped && b.moduleValue.None?
  {
    Shape(text, evs);
    TopBlocksPlain(evs);
    KeepPlainAll(TopBlocks(evs));
    assert Headers(Extract(text, evs).customBlocks)[i] == Header(Extract(text, evs).customBlocks[i]);
  }

  /** Every top-level block's derived fields are those `NewBlock` gives. */
  ghost predicate Plain(b: BlockValue)
  {
    !IsSpecialTag(b.blockType) ==> b.lang.None? && b.src.None? && !b.scoped && b.moduleValue.None?
  }

  lemma {:induction false} TopBlocksPlain(evs: seq<Event>)
    ensures forall j :: 0 <= j < |TopBlocks(evs)| ==> Plain(TopBlocks(evs)[j])
  {
    if evs != [] {
      TopBlocksPlain(evs[..|evs| - 1]);
    }
  }

  lemma {:induction false} KeepPlainAll(bs: seq<BlockValue>)
    requires forall j :: 0 <= j < |bs| ==> Plain(bs[j])
    ensures forall j :: 0 <= j < |Keep(bs, IsCustomTag)| ==>
      Plain(Keep(bs, IsCustomTag)[j]) && IsCustomTag(Keep(bs, IsCustomTag)[j].blockType)
  {
    if bs != [] {
      KeepPlainAll(bs[..|bs| - 1]);
    }
  }

  // ---------------------------------------------------------------------
  // Attributes
  // ---------------------------------------------------------------------

  /** The attribute map has a name iff some attribute carries it, and the
      last such attribute decides its value, an empty value becoming
      `true`. */
  lemma {:induction false} FoldAttrsLastWins(attrs: seq<Attribute>, name: string)
    ensures (name in FoldAttrs(attrs)) == (LastIndex(attrs, name) >= 0)
    ensures LastIndex(attrs, name) >= 0 ==>
      FoldAttrs(attrs)[name] == OrTrue(attrs[LastIndex(attrs, name)].value)
  {
    if attrs != [] {
      FoldAttrsLastWins(attrs[..|attrs| - 1], name);
    }
  }

  lemma {:induction false} DerivedLang(b: BlockValue, attrs: seq<Attribute>)
    ensures var r, k := CheckAttrsValue(b, attrs), LastIndex(attrs, "lang");
      r.lang == if k >= 0 then Some(attrs[k].value) else b.lang
  {
    if attrs != [] {
      DerivedLang(b, attrs[..|attrs| - 1]);
    }
  }

  lemma {:induction false} DerivedSrc(b: BlockValue, attrs: seq<Attribute>)
    ensures var r, k := CheckAttrsValue(b, attrs), LastIndex(attrs, "src");
      r.src == if k >= 0 then Some(attrs[k].value) else b.src
  {
    if attrs != [] {
      DerivedSrc(b, attrs[..|attrs| - 1]);
    }
  }

  lemma {:induction false} DerivedModule(b: BlockValue, attrs: seq<Attribute>)
    ensures var r, k := CheckAttrsValue(b, attrs), LastIndex(attrs, "module");
      r.moduleValue == if k >= 0 then Some(OrTrue(attrs[k].value)) else b.moduleValue
  {
    if attrs != [] {
      DerivedModule(b, attrs[..|attrs| - 1]);
    }
  }

  lemma {:induction false} DerivedScoped(b: BlockValue, attrs: seq<Attribute>)
    ensures CheckAttrsValue(b, attrs).scoped <==>
      b.scoped || exists j :: 0 <= j < |attrs| && attrs[j].name == "scoped"
  {
    if attrs != [] {
      var prefix := attrs[..|attrs| - 1];
      DerivedScoped(b, prefix);
      if CheckAttrsValue(b, prefix).scoped && !b.scoped {
        var j :| 0 <= j < |prefix| && prefix[j].name == "scoped";
        assert attrs[j].name == "scoped";
      }
    }
  }

  /** `checkAttrs`: `lang` and `src` are the raw value of the last attribute
      of that name, `module` its value or `true`, and `scoped` is set iff
      some attribute is called `scoped`; without such an attribute the
      field keeps what it had. */
  lemma DerivedFields(b: BlockValue, attrs: seq<Attribute>)
    ensures var r, k := CheckAttrsValue(b, attrs), LastIndex(attrs, "lang");
      r.lang == if k >= 0 then Some(attrs[k].value) else b.lang
    ensures var r, k := CheckAttrsValue(b, attrs), LastIndex(attrs, "src");
      r.src == if k >= 0 then Some(attrs[k].value) else b.src
    ensures var r, k := CheckAttrsValue(b, attrs), LastIndex(attrs, "module");
      r.moduleValue == if k >= 0 then Some(OrTrue(attrs[k].value)) else b.moduleValue
    ensures CheckAttrsValue(b, attrs).scoped <==>
      b.scoped || exists j :: 0 <= j < |attrs| && attrs[j].name == "scoped"
  {
    DerivedLang(b, attrs);
    DerivedSrc(b, attrs);
    DerivedModule(b, attrs);
    DerivedScoped(b, attrs);
  }

  /** So a top-level special block carries exactly the derived fields its
      attributes ask for. */
  lemma SpecialBlockFields(tag: string, attrs: seq<Attribute>, tagEnd: nat)
    requires IsSpecialTag(tag)
    ensures var b, k := NewBlock(tag, attrs, tagEnd), LastIndex(attrs, "lang");
      b.lang == if k >= 0 then Some(attrs[k].value) else None
    ensures var b, k := NewBlock(tag, attrs, tagEnd), LastIndex(attrs, "src");
      b.src == if k >= 0 then Some(attrs[k].value) else None
    ensures var b, k := NewBlock(tag, attrs, tagEnd), LastIndex(attrs, "module");
      b.moduleValue == if k >= 0 then Some(OrTrue(attrs[k].value)) else None
    ensures NewBlock(tag, attrs, tagEnd).scoped <==> exists j :: 0 <= j < |attrs| && attrs[j].name == "scoped"
  {
    DerivedFields(Opened(tag, attrs, tagEnd), attrs);
  }

  // ---------------------------------------------------------------------
  // Offsets and content
  // ---------------------------------------------------------------------

  /** What the tokenizer guarantees: every tag lies inside the text, and
      tags come in document order without overlapping. */
  predicate WellFormed(text: string, evs: seq<Event>)
  {
    && (forall i :: 0 <= i < |evs| ==> evs[i].s <= evs[i].e <= |text|)
    && (forall i :: 0 < i < |evs| ==> evs[i - 1].e <= evs[i].s)
  }

  /** How far into the text the events reach. */
  function Bound(evs: seq<Event>): nat
  {
    if evs == [] then 0 else evs[|evs| - 1].e
  }

  /** A block that lies inside the first `bound` characters and whose
      content is the text between its `start` and `end`. */
  ghost predicate Fits(text: string, b: BlockValue, bound: nat)
  {
    b.start <= b.end <= bound <= |text| && b.content == text[b.start..b.end]
  }

  ghost predicate AllFit(text: string, v: DescValue, bound: nat)
  {
    && (v.template.Some? ==> Fits(text, v.template.value, bound))
    && (v.script.Some? ==> Fits(text, v.script.value, bound))
    && (forall i :: 0 <= i < |v.styles| ==> Fits(text, v.styles[i], bound))
    && (forall i :: 0 <= i < |v.customBlocks| ==> Fits(text, v.customBlocks[i], bound))
    && (forall k :: k in v.extra ==> Fits(text, v.extra[k], bound))
  }

  lemma PutFits(text: string, v: DescValue, slot: Slot, c: BlockValue, bound: nat)
    requires AllFit(text, v, bound) && Fits(text, c, bound)
    ensures AllFit(text, Put(v, slot, c), bound)
  {
  }

  lemma WidenFits(text: string, v: DescValue, bound: nat, bound': nat)
    requires AllFit(text, v, bound) && bound <= bound' <= |text|
    ensures AllFit(text, v, bound')
  {
  }

  lemma GetFits(text: string, v: DescValue, slot: Slot, bound: nat)
    requires AllFit(text, v, bound) && Get(v, slot).Some?
    ensures Fits(text, Get(v, slot).value, bound)
  {
  }

  lemma WellFormedPrefix(text: string, evs: seq<Event>, n: nat)
    requires WellFormed(text, evs) && n <= |evs|
    ensures WellFormed(text, evs[..n])
  {
    assert forall i :: 0 <= i < n ==> evs[..n][i] == evs[i];
  }

  lemma {:induction false} RunFits(text: string, evs: seq<Event>)
    requires WellFormed(text, evs)
    ensures Bound(evs) <= |text|
    ensures AllFit(text, Run(text, evs).sfc, Bound(evs))
  {
    if evs != [] {
      var prefix, ev := evs[..|evs| - 1], evs[|evs| - 1];
      var st := Run(text, prefix);
      WellFormedPrefix(text, evs, |evs| - 1);
      RunFits(text, prefix);
      assert Bound(prefix) <= ev.s;
      WidenFits(text, st.sfc, Bound(prefix), ev.e);
      match ev
      case Open(tag, attrs, unary, _, e) =>
        if st.depth == 0 {
          PutFits(text, st.sfc, SlotFor(st.sfc, tag), NewBlock(tag, attrs, e), e);
        }
      case Close(_, s, _) =>
        if st.depth == 1 && st.current.Some? && Get(st.sfc, st.current.value).Some? {
          var b := Get(st.sfc, st.current.value).value;
          GetFits(text, st.sfc, st.current.value, Bound(prefix));
          PutFits(text, st.sfc, st.current.value, Closed(b, text, s), ev.e);
        }
    }
  }

  /** For events the tokenizer can report, every block lies inside the
      text, `start <= end`, and its content is exactly the text between
      its opening and closing tag, whitespace included. A block that no
      closing tag ends keeps `start == end` and empty content
      (`UnclosedBlockStaysEmpty`, `UnaryBlockStaysEmpty`). */
  lemma ContentIsText(text: string, evs: seq<Event>)
    requires WellFormed(text, evs)
    ensures AllFit(text, Extract(text, evs), |text|)
  {
    RunFits(text, evs);
    WidenFits(text, Extract(text, evs), Bound(evs), |text|);
  }

  // ---------------------------------------------------------------------
  // Where `currentBlock` points
  // ---------------------------------------------------------------------

  lemma GetPutFor(v: DescValue, tag: string, b: BlockValue)
    ensures Get(Put(v, SlotFor(v, tag), b), SlotFor(v, tag)) == Some(b)
  {
  }

  lemma GetPutOther(v: DescValue, slot: Slot, other: Slot, b: BlockValue)
    requires other != slot
    ensures Get(Put(v, slot, b), other) == Get(v, other)
  {
  }

  /** `currentBlock` is never a dangling reference. */
  lemma {:induction false} CurrentIsStored(text: string, evs: seq<Event>)
    ensures Run(text, evs).current.Some? ==> Get(Run(text, evs).sfc, Run(text, evs).current.value).Some?
  {
    if evs != [] {
      var prefix, ev := evs[..|evs| - 1], evs[|evs| - 1];
      var st := Run(text, prefix);
      CurrentIsStored(text, prefix);
      match ev
      case Open(tag, attrs, unary, _, e) =>
        if st.depth == 0 {
          GetPutFor(st.sfc, tag, NewBlock(tag, attrs, e));
        }
      case Close(_, _, _) =>
    }
  }

  /** A closing tag at depth 1 ends the current block where the closing tag
      starts, gives it the text in between as content, and leaves nothing
      current at depth 0. */
  lemma CloseFixesBlock(text: string, evs: seq<Event>, i: nat)
    requires WellFormed(text, evs) && i < |evs| && evs[i].Close?
    requires Run(text, evs[..i]).depth == 1 && Run(text, evs[..i]).current.Some?
    ensures var st := Run(text, evs[..i]);
      && Get(st.sfc, st.current.value).Some?
      && var b := Get(st.sfc, st.current.value).value;
      && b.start <= evs[i].s
      && Get(Run(text, evs[..i + 1]).sfc, st.current.value)
           == Some(b.(end := evs[i].s, content := text[b.start..evs[i].s]))
      && Run(text, evs[..i + 1]).current.None?
      && Run(text, evs[..i + 1]).depth == 0
  {
    var st := Run(text, evs[..i]);
    assert evs[..i + 1][..i] == evs[..i];
    CurrentIsStored(text, evs[..i]);
    WellFormedPrefix(text, evs, i);
    RunFits(text, evs[..i]);
    GetFits(text, st.sfc, st.current.value, Bound(evs[..i]));
    assert Bound(evs[..i]) <= evs[i].s;
  }

  /** `ev`, seen in state `st`, neither stores a top-level block at `slot`
      nor closes the block there. */
  predicate Spares(st: ParseState, ev: Event, slot: Slot)
  {
    && (ev.Open? && st.depth == 0 ==> SlotFor(st.sfc, ev.tag) != slot)
    && (ev.Close? && st.depth == 1 ==> st.current != Some(slot))
  }

  /** An event that spares `slot` leaves the block there as it was. */
  lemma StepKeepsSlot(text: string, st: ParseState, ev: Event, slot: Slot, b: BlockValue)
    requires Get(st.sfc, slot) == Some(b) && Spares(st, ev, slot)
    ensures Get(Step(st, text, ev).sfc, slot) == Some(b)
  {
    match ev
    case Open(tag, attrs, _, _, e) =>
      if st.depth == 0 {
        GetPutOther(st.sfc, SlotFor(st.sfc, tag), slot, NewBlock(tag, attrs, e));
      }
    case Close(_, s, _) =>
      if st.depth == 1 && st.current.Some? && Get(st.sfc, st.current.value).Some? {
        GetPutOther(st.sfc, st.current.value, slot, Closed(Get(st.sfc, st.current.value).value, text, s));
      }
  }

  /** One event keeps "when `slot` is current, depth is at most 0", unless
      it is a top-level opening tag whose block goes to that slot. */
  lemma StepKeepsShallow(text: string, st: ParseState, ev: Event, slot: Slot)
    requires st.current == Some(slot) ==> st.depth <= 0
    requires ev.Open? && st.depth == 0 ==> SlotFor(st.sfc, ev.tag) != slot
    ensures Step(st, text, ev).current == Some(slot) ==> Step(st, text, ev).depth <= 0
  {
  }

  /** A top-level block that no closing tag ends keeps the value `start`
      gave it, empty content and `start == end` included, as long as no
      other top-level tag is stored in the same slot. */
  lemma {:induction false} UnclosedBlockStaysEmpty(text: string, evs: seq<Event>, i: nat, j: nat)
    requires i < j <= |evs|
    requires evs[i].Open? && Run(text, evs[..i]).depth == 0
    requires forall m :: i < m < j ==>
      Spares(Run(text, evs[..m]), evs[m], SlotFor(Run(text, evs[..i]).sfc, evs[i].tag))
    ensures var b := Get(Run(text, evs[..j]).sfc, SlotFor(Run(text, evs[..i]).sfc, evs[i].tag));
      && b == Some(NewBlock(evs[i].tag, evs[i].attrs, evs[i].e))
      && b.value.content == "" && b.value.start == b.value.end == evs[i].e
    decreases j
  {
    var slot := SlotFor(Run(text, evs[..i]).sfc, evs[i].tag);
    var st := Run(text, evs[..j - 1]);
    RunLast(text, evs, j);
    if j == i + 1 {
      assert Get(Step(st, text, evs[i]).sfc, slot) == Some(NewBlock(evs[i].tag, evs[i].attrs, evs[i].e));
    } else {
      UnclosedBlockStaysEmpty(text, evs, i, j - 1);
      StepKeepsSlot(text, st, evs[j - 1], slot, NewBlock(evs[i].tag, evs[i].attrs, evs[i].e));
    }
  }

  /** A block opened by a self-closing top-level tag is never closed: until
      another top-level tag is stored in the same slot it keeps the value
      `start` gave it, empty content and `start == end` included. */
  lemma {:induction false} UnaryBlockStaysEmpty(text: string, evs: seq<Event>, i: nat, j: nat)
    requires i < j <= |evs|
    requires evs[i].Open? && evs[i].unary && Depth(evs[..i]) == 0
    requires forall m :: i < m < j && evs[m].Open? && Depth(evs[..m]) == 0 ==>
      SlotFor(Run(text, evs[..m]).sfc, evs[m].tag) != SlotFor(Run(text, evs[..i]).sfc, evs[i].tag)
    ensures var slot := SlotFor(Run(text, evs[..i]).sfc, evs[i].tag);
      Get(Run(text, evs[..j]).sfc, slot) == Some(NewBlock(evs[i].tag, evs[i].attrs, evs[i].e))
    ensures var slot := SlotFor(Run(text, evs[..i]).sfc, evs[i].tag);
      Run(text, evs[..j]).current == Some(slot) ==> Run(text, evs[..j]).depth <= 0
    decreases j
  {
    var slot := SlotFor(Run(text, evs[..i]).sfc, evs[i].tag);
    var st := Run(text, evs[..j - 1]);
    RunLast(text, evs, j);
    RunDepth(text, evs[..j - 1]);
    if j > i + 1 {
      UnaryBlockStaysEmpty(text, evs, i, j - 1);
      StepKeepsSlot(text, st, evs[j - 1], slot, NewBlock(evs[i].tag, evs[i].attrs, evs[i].e));
      StepKeepsShallow(text, st, evs[j - 1], slot);
    }
  }

  // ---------------------------------------------------------------------
  // Examples
  // ---------------------------------------------------------------------

  /** `Run` over a non-empty sequence is one `Step` past its prefix. */
  lemma RunLast(text: string, evs: seq<Event>, n: nat)
    requires 0 < n <= |evs|
    ensures Run(text, evs[..n]) == Step(Run(text, evs[..n - 1]), text, evs[n - 1])
  {
    assert evs[..n][..n - 1] == evs[..n - 1];
  }

  const TemplateHiText := "<template>Hi</template>"
  const TemplateHiEvents := [Open("template", [], false, 0, 10), Close("template", 12, 23)]

  /** `<template>Hi</template>`: the block spans the two characters between
      the tags. */
  lemma TemplateHi()
    ensures WellFormed(TemplateHiText, TemplateHiEvents)
    ensures Extract(TemplateHiText, TemplateHiEvents).template
      == Some(BlockValue("template", "Hi", map[], 10, 12, None, None, false, None))
  {
    var text, evs := TemplateHiText, TemplateHiEvents;
    var b := NewBlock("template", [], 10);
    assert b == BlockValue("template", "", map[], 10, 10, None, None, false, None);
    RunLast(text, evs, 1);
    assert evs[..0] == [];
    var st1 := Run(text, evs[..1]);
    assert st1 == ParseState(EmptyDescriptor.(template := Some(b)), 1, Some(TemplateSlot));
    RunLast(text, evs, 2);
    assert evs[..2] == evs;
    assert text[10..12] == "Hi";
  }

  const ShiftedText := "<script></script><template>Hi</template>"
  const ShiftedEvents := [
    Open("script", [], false, 0, 8), Close("script", 8, 17),
    Open("template", [], false, 17, 27), Close("template", 29, 40)]

  /** `<script></script><template>Hi</template>`: the same template now
      starts at 27 and ends at 29, and the empty script block is closed
      with `start == end`. */
  lemma Shifted()
    ensures WellFormed(ShiftedText, ShiftedEvents)
    ensures Extract(ShiftedText, ShiftedEvents).template
      == Some(BlockValue("template", "Hi", map[], 27, 29, None, None, false, None))
    ensures Extract(ShiftedText, ShiftedEvents).script
      == Some(BlockValue("script", "", map[], 8, 8, None, None, false, None))
  {
    var text, evs := ShiftedText, ShiftedEvents;
    var s := BlockValue("script", "", map[], 8, 8, None, None, false, None);
    var t := BlockValue("template", "", map[], 27, 27, None, None, false, None);
    assert NewBlock("script", [], 8) == s;
    assert NewBlock("template", [], 27) == t;
    assert evs[..0] == [];
    RunLast(text, evs, 1);
    assert Run(text, evs[..1]) == ParseState(EmptyDescriptor.(script := Some(s)), 1, Some(ScriptSlot));
    RunLast(text, evs, 2);
    assert text[8..8] == "";
    assert Run(text, evs[..2]) == ParseState(EmptyDescriptor.(script := Some(s)), 0, None);
    RunLast(text, evs, 3);
    assert Run(text, evs[..3]) == ParseState(EmptyDescriptor.(script := Some(s), template := Some(t)), 1, Some(TemplateSlot));
    RunLast(text, evs, 4);
    assert evs[..4] == evs;
    assert text[27..29] == "Hi";
  }
  const PositionText := "\n    <template>\n      <p>Hi</p>\n    </template>\n    <script lang=\"ts\">\n    export default {}\n    </script>\n    "
  const PositionEvents := [
    Open("template", [], false, 5, 15),
    Open("p", [], false, 22, 25), Close("p", 27, 31),
    Close("template", 36, 47),
    Open("script", [Attribute("lang", "ts")], false, 52, 70), Close("script", 97, 106)]

  /** The first four events of the offset test: the template is opened,
      the nested `p` changes nothing but depth, and the template is closed. */
  lemma PositionsTemplate()
    ensures Run(PositionText, PositionEvents[..4])
      == ParseState(EmptyDescriptor.(template := Some(Closed(NewBlock("template", [], 15), PositionText, 36))), 0, None)
  {
    var text, evs := PositionText, PositionEvents;
    var t := NewBlock("template", [], 15);
    assert evs[..0] == [];
    RunLast(text, evs, 1);
    var st1 := ParseState(EmptyDescriptor.(template := Some(t)), 1, Some(TemplateSlot));
    assert Run(text, evs[..1]) == st1;
    RunLast(text, evs, 2);
    assert Run(text, evs[..2]) == st1.(depth := 2);
    RunLast(text, evs, 3);
    assert Run(text, evs[..3]) == st1;
    RunLast(text, evs, 4);
  }

  /** The tags of the offset test lie in order inside its text. */
  lemma PositionsWellFormed()
    ensures WellFormed(PositionText, PositionEvents)
  {
    var evs := PositionEvents;
    assert |PositionText| == 111;
    assert forall i :: 0 <= i < |evs| ==> evs[i].e <= 106;
  }

  /** The component of the offset test: the template content starts at 15
      and the script content, whose `lang` is `ts`, at 70; the nested `p`
      adds no block. */
  lemma Positions()
    ensures WellFormed(PositionText, PositionEvents)
    ensures var sfc := Extract(PositionText, PositionEvents);
      && sfc.template.Some? && sfc.template.value.start == 15
      && sfc.script.Some? && sfc.script.value.start == 70 && sfc.script.value.lang == Some("ts")
      && sfc.customBlocks == []
  {
    var text, evs := PositionText, PositionEvents;
    PositionsWellFormed();
    var c := NewBlock("script", [Attribute("lang", "ts")], 70);
    assert [Attribute("lang", "ts")][..0] == [];
    assert c.start == 70 && c.lang == Some("ts");
    PositionsTemplate();
    var st4 := Run(text, evs[..4]);
    RunLast(text, evs, 5);
    assert Run(text, evs[..5]) == ParseState(st4.sfc.(script := Some(c)), 1, Some(ScriptSlot));
    RunLast(text, evs, 6);
    assert evs[..6] == evs;
  }
}
