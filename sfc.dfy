/**
 * The public face of src/index.ts: `SFCBlock`, a copy of a raw block with
 * the offset helpers, and `parseComponent`, which wraps every block of the
 * raw descriptor.
 */
module Sfc {
  import opened Utils
  import Raw = SfcParser
  import P = SfcParserProperties

  /** An `SFCBlock`: the fields of the raw block it was made from. Nothing
      assigns them after the constructor. */
  class SFCBlock {
    const blockType: string
    const content: string
    const attrs: map<string, AttrValue>
    const start: nat
    const end: nat
    const lang: Option<string>
    const src: Option<string>
    const scoped: bool
    const moduleValue: Option<AttrValue>

    function Value(): Raw.BlockValue
    {
      Raw.BlockValue(blockType, content, attrs, start, end, lang, src, scoped, moduleValue)
    }

    /** Copies every field of `block`. */
    constructor (block: Raw.BlockRaw)
      ensures Value() == block.Value()
    {
      blockType := block.blockType;
      content := block.content;
      attrs := block.attrs;
      start := block.start;
      end := block.end;
      lang := block.lang;
      src := block.src;
      scoped := block.scoped;
      moduleValue := block.moduleValue;
    }

    /** `calcGlobalOffset`: an offset into `content` as an offset into the
        whole file; an offset between 0 and the block's length lands
        between the block's `start` and `end`. */
    function CalcGlobalOffset(offset: int): (g: int)
      ensures 0 <= offset ==> start <= g
      ensures offset <= end - start ==> g <= end
    {
      start + offset
    }

    /** `calcGlobalRange`: both ends of a range, moved likewise; the range
        keeps its width and its direction. */
    function CalcGlobalRange(range: (int, int)): (g: (int, int))
      ensures g.1 - g.0 == range.1 - range.0
      ensures 0 <= range.0 ==> start <= g.0
      ensures range.1 <= end - start ==> g.1 <= end
    {
      (CalcGlobalOffset(range.0), CalcGlobalOffset(range.1))
    }

    /** The block equality `hasDiff` asks for: every field agrees, the
        attribute records compared by `equalsRecord`. It is exactly
        equality of the blocks' values. */
    function Equals(other: SFCBlock): (r: bool)
      ensures r <==> Value() == other.Value()
    {
      EqualsRecordIsEquality(attrs, other.attrs);
      && blockType == other.blockType
      && content == other.content
      && EqualsRecord(attrs, other.attrs)
      && start == other.start
      && end == other.end
      && lang == other.lang
      && src == other.src
      && scoped == other.scoped
      && moduleValue == other.moduleValue
    }
  }

  /** An offset into the content of a block whose content is the text
      between its `start` and `end` names the same character of the file. */
  lemma GlobalOffsetReadsContent(text: string, b: SFCBlock, offset: int)
    requires P.Fits(text, b.Value(), |text|)
    requires 0 <= offset < |b.content|
    ensures 0 <= b.CalcGlobalOffset(offset) < |text|
    ensures text[b.CalcGlobalOffset(offset)] == b.content[offset]
  {
    assert b.content[offset] == text[b.start..b.end][offset];
  }

  /** A range of the content maps to a range of the file of the same width
      that holds the same characters. */
  lemma GlobalRangeReadsContent(text: string, b: SFCBlock, range: (int, int))
    requires P.Fits(text, b.Value(), |text|)
    requires 0 <= range.0 <= range.1 <= |b.content|
    ensures var g := b.CalcGlobalRange(range);
      && 0 <= g.0 <= g.1 <= |text|
      && g.1 - g.0 == range.1 - range.0
      && text[g.0..g.1] == b.content[range.0..range.1]
  {
    var g := b.CalcGlobalRange(range);
    assert b.content == text[b.start..b.end];
    assert text[g.0..g.1] == text[b.start..b.end][range.0..range.1];
  }

  /** `SFCDescriptor`; `extra` holds the blocks that the raw descriptor
      keeps under a mixed-case special tag. */
  datatype Descriptor = Descriptor(
    template: SFCBlock?,
    script: SFCBlock?,
    styles: seq<SFCBlock>,
    customBlocks: seq<SFCBlock>,
    extra: map<string, SFCBlock>)

  function ValueOf(b: SFCBlock?): Option<Raw.BlockValue>
  {
    if b == null then None else Some(b.Value())
  }

  function ValuesOf(bs: seq<SFCBlock>): (vs: seq<Raw.BlockValue>)
    ensures |vs| == |bs|
  {
    seq(|bs|, i requires 0 <= i < |bs| => bs[i].Value())
  }

  /** The value a descriptor holds. */
  function Values(d: Descriptor): Raw.DescValue
  {
    Raw.DescValue(ValueOf(d.template), ValueOf(d.script), ValuesOf(d.styles), ValuesOf(d.customBlocks),
                  map k | k in d.extra :: d.extra[k].Value())
  }

  /** `value.map(v => new SFCBlock(v))`. */
  method WrapList(raws: seq<Raw.BlockRaw>) returns (blocks: seq<SFCBlock>)
    ensures |blocks| == |raws|
    ensures forall i :: 0 <= i < |raws| ==> blocks[i].Value() == raws[i].Value()
  {
    blocks := [];
    for i := 0 to |raws|
      invariant |blocks| == i
      invariant forall j :: 0 <= j < i ==> blocks[j].Value() == raws[j].Value()
    {
      var b := new SFCBlock(raws[i]);
      blocks := blocks + [b];
    }
  }

  /** `value && new SFCBlock(value)`. */
  method WrapOne(raw: Raw.BlockRaw?) returns (block: SFCBlock?)
    ensures (block == null) == (raw == null)
    ensures raw != null ==> block.Value() == raw.Value()
  {
    block := null;
    if raw != null {
      block := new SFCBlock(raw);
    }
  }

  /** `mapValues` over the keys the raw descriptor gained beyond its four. */
  method WrapExtra(raws: map<string, Raw.BlockRaw>) returns (blocks: map<string, SFCBlock>)
    ensures blocks.Keys == raws.Keys
    ensures forall k :: k in raws ==> blocks[k].Value() == raws[k].Value()
  {
    blocks := map[];
    var keys := raws.Keys;
    while keys != {}
      invariant keys <= raws.Keys
      invariant blocks.Keys == raws.Keys - keys
      invariant forall k :: k in blocks ==> blocks[k].Value() == raws[k].Value()
      decreases keys
    {
      var k :| k in keys;
      var b := new SFCBlock(raws[k]);
      blocks := blocks[k := b];
      keys := keys - {k};
    }
  }

  /** `parseComponent` of src/index.ts: the raw descriptor with every block
      wrapped; a missing `template` or `script` stays missing and the lists
      keep their length and order. */
  method ParseComponent(code: string, events: seq<Raw.Event>) returns (d: Descriptor)
    ensures Values(d) == Raw.Extract(code, events)
  {
    var raw := Raw.ParseComponent(code, events);
    ghost var v := Raw.Extract(code, events);
    var template := WrapOne(raw.template);
    var script := WrapOne(raw.script);
    var styles := WrapList(raw.styles);
    var customBlocks := WrapList(raw.customBlocks);
    var extra := WrapExtra(raw.extra);
    d := Descriptor(template, script, styles, customBlocks, extra);
    WrappedValues(raw, v, d);
  }

  /** A descriptor whose blocks copy those of a raw descriptor holding `v`
      holds `v` itself. */
  lemma WrappedValues(raw: Raw.DescriptorRaw, v: Raw.DescValue, d: Descriptor)
    requires Raw.Holds(raw, v)
    requires (d.template == null) == (raw.template == null)
    requires raw.template != null ==> d.template.Value() == raw.template.Value()
    requires (d.script == null) == (raw.script == null)
    requires raw.script != null ==> d.script.Value() == raw.script.Value()
    requires |d.styles| == |raw.styles|
    requires forall i :: 0 <= i < |raw.styles| ==> d.styles[i].Value() == raw.styles[i].Value()
    requires |d.customBlocks| == |raw.customBlocks|
    requires forall i :: 0 <= i < |raw.customBlocks| ==> d.customBlocks[i].Value() == raw.customBlocks[i].Value()
    requires d.extra.Keys == raw.extra.Keys
    requires forall k :: k in raw.extra ==> d.extra[k].Value() == raw.extra[k].Value()
    ensures Values(d) == v
  {
    assert ValuesOf(d.styles) == v.styles;
    assert ValuesOf(d.customBlocks) == v.customBlocks;
  }

  /** The offsets of the offset example: 7 into the template content is 22
      into the file, and 5 into the script content is 75. */
  lemma ModifiedPosition(d: Descriptor)
    requires Values(d) == Raw.Extract(P.PositionText, P.PositionEvents)
    ensures d.template != null && d.template.CalcGlobalOffset(7) == 22
    ensures d.script != null && d.script.CalcGlobalOffset(5) == 75
  {
    P.Positions();
  }
}
