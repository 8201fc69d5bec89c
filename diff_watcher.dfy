/**
 * src/diff-watcher.ts: `SFCDiffWatcher` keeps the last descriptor of every
 * file it was told about, and `SFCDiff` answers, segment by segment,
 * whether a file's descriptor changed. A callback is modelled by what it is
 * handed: `Some(payload)` when the source calls it, `None` when it does not.
 */
module DiffWatcher {
  import opened Utils
  import Raw = SfcParser
  import P = SfcParserProperties
  import opened Sfc

  /** `hasDiff`: a block that appeared or vanished is a change, two missing
      blocks are not, and two present blocks differ iff they are not
      equal. */
  function HasDiff(prev: SFCBlock?, curr: SFCBlock?): (r: bool)
    ensures prev == null && curr == null ==> !r
    ensures (prev == null) != (curr == null) ==> r
    ensures prev != null && curr != null ==> (r <==> prev.Value() != curr.Value())
  {
    if prev == null || curr == null then prev != curr else !prev.Equals(curr)
  }

  /** The `reduce` of `hasListDiff` over the first `n` index pairs:
      `acc && hasDiff(p, curr[i])`, seeded with `true`. */
  function AllDiffer(prev: seq<SFCBlock>, curr: seq<SFCBlock>, n: nat): (r: bool)
    requires n <= |prev| && n <= |curr|
    ensures r <==> forall i :: 0 <= i < n ==> prev[i].Value() != curr[i].Value()
  {
    if n == 0 then true else AllDiffer(prev, curr, n - 1) && HasDiff(prev[n - 1], curr[n - 1])
  }

  /** `hasListDiff`: lists of different lengths differ; lists of the same
      length are reported only when EVERY index pair differs, which holds
      vacuously of two empty lists. */
  function HasListDiff(prev: seq<SFCBlock>, curr: seq<SFCBlock>): (r: bool)
    ensures |prev| != |curr| ==> r
    ensures |prev| == |curr| ==> (r <==> forall i :: 0 <= i < |prev| ==> prev[i].Value() != curr[i].Value())
  {
    if |prev| != |curr| then true else AllDiffer(prev, curr, |prev|)
  }

  /** One list diff between two given descriptors. */
  class SFCDiff {
    const prev: Descriptor
    const curr: Descriptor

    constructor (prev: Descriptor, curr: Descriptor)
      ensures this.prev == prev && this.curr == curr
    {
      this.prev := prev;
      this.curr := curr;
    }

    /** `template(cb)`: `cb(curr.template)` exactly when the template
        changed; the diff itself comes back for chaining. */
    method Template() returns (call: Option<SFCBlock?>, self: SFCDiff)
      ensures call.Some? <==> HasDiff(prev.template, curr.template)
      ensures call.Some? ==> call.value == curr.template
      ensures self == this
    {
      call := None;
      if HasDiff(prev.template, curr.template) {
        call := Some(curr.template);
      }
      self := this;
    }

    /** `script(cb)`, likewise for the script. */
    method Script() returns (call: Option<SFCBlock?>, self: SFCDiff)
      ensures call.Some? <==> HasDiff(prev.script, curr.script)
      ensures call.Some? ==> call.value == curr.script
      ensures self == this
    {
      call := None;
      if HasDiff(prev.script, curr.script) {
        call := Some(curr.script);
      }
      self := this;
    }

    /** `styles(cb)`: `cb(curr.styles)` when the list diff reports a change. */
    method Styles() returns (call: Option<seq<SFCBlock>>, self: SFCDiff)
      ensures call.Some? <==> HasListDiff(prev.styles, curr.styles)
      ensures call.Some? ==> call.value == curr.styles
      ensures self == this
    {
      call := None;
      if HasListDiff(prev.styles, curr.styles) {
        call := Some(curr.styles);
      }
      self := this;
    }

    /** `customBlocks(name, cb)`: the whole custom block list, compared and
        handed over unfiltered; `name` plays no part. */
    method CustomBlocks(name: string) returns (call: Option<seq<SFCBlock>>, self: SFCDiff)
      ensures call.Some? <==> HasListDiff(prev.customBlocks, curr.customBlocks)
      ensures call.Some? ==> call.value == curr.customBlocks
      ensures self == this
    {
      call := None;
      if HasListDiff(prev.customBlocks, curr.customBlocks) {
        call := Some(curr.customBlocks);
      }
      self := this;
    }
  }

  /** The watcher: the last descriptor of every file, by name. The
      tokenizer's events for a content are passed in with it. */
  class SFCDiffWatcher {
    var prevMap: map<string, Descriptor>

    constructor ()
      ensures prevMap == map[]
    {
      prevMap := map[];
    }

    /** `add`: parses `content`, remembers the result under `filename` and
        returns it. */
    method Add(filename: string, content: string, events: seq<Raw.Event>) returns (d: Descriptor)
      modifies this
      ensures Values(d) == Raw.Extract(content, events)
      ensures prevMap == old(prevMap)[filename := d]
    {
      d := ParseComponent(content, events);
      prevMap := prevMap[filename := d];
    }

    /** `remove`: forgets `filename`, if it was there. */
    method Remove(filename: string)
      modifies this
      ensures prevMap == old(prevMap) - {filename}
    {
      prevMap := prevMap - {filename};
    }

    /** `diff`: the file must have been added. Pairs the remembered
        descriptor with the new parse, which replaces it. */
    method Diff(filename: string, content: string, events: seq<Raw.Event>) returns (diff: SFCDiff)
      requires filename in prevMap
      modifies this
      ensures diff.prev == old(prevMap)[filename]
      ensures Values(diff.curr) == Raw.Extract(content, events)
      ensures prevMap == old(prevMap)[filename := diff.curr]
    {
      var prev := prevMap[filename];
      var curr := ParseComponent(content, events);
      prevMap := prevMap[filename := curr];
      diff := new SFCDiff(prev, curr);
    }
  }

  // ---------------------------------------------------------------------
  // Properties of the diff
  // ---------------------------------------------------------------------

  /** For one block per list the list diff is the block diff. */
  lemma SingletonListDiff(prev: seq<SFCBlock>, curr: seq<SFCBlock>)
    requires |prev| == 1 && |curr| == 1
    ensures HasListDiff(prev, curr) == HasDiff(prev[0], curr[0])
  {
  }

  /** Two empty lists are reported as changed. */
  lemma EmptyListsDiffer()
    ensures HasListDiff([], [])
  {
  }

  /** One changed block next to an unchanged one goes unreported. */
  lemma PartialChangeUnreported(prev: seq<SFCBlock>, curr: seq<SFCBlock>)
    requires |prev| == 2 && |curr| == 2
    requires prev[0].Value() != curr[0].Value() && prev[1].Value() == curr[1].Value()
    ensures !HasListDiff(prev, curr)
  {
  }

  /** Two descriptors holding the same values: template and script stay
      quiet, and a list fires iff it is empty. */
  lemma SameValuesQuiet(prev: Descriptor, curr: Descriptor)
    requires Values(prev) == Values(curr)
    ensures !HasDiff(prev.template, curr.template)
    ensures !HasDiff(prev.script, curr.script)
    ensures HasListDiff(prev.styles, curr.styles) <==> prev.styles == []
    ensures HasListDiff(prev.customBlocks, curr.customBlocks) <==> prev.customBlocks == []
  {
    assert ValuesOf(prev.styles) == ValuesOf(curr.styles);
    assert ValuesOf(prev.customBlocks) == ValuesOf(curr.customBlocks);
    if prev.styles != [] {
      assert ValuesOf(prev.styles)[0] == ValuesOf(curr.styles)[0];
    }
    if prev.customBlocks != [] {
      assert ValuesOf(prev.customBlocks)[0] == ValuesOf(curr.customBlocks)[0];
    }
  }

  /** Diffing a file twice with the same text: the second diff fires
      neither `template` nor `script`. */
  method DiffTwice(w: SFCDiffWatcher, filename: string, content: string, events: seq<Raw.Event>)
    returns (first: SFCDiff, second: SFCDiff)
    requires filename in w.prevMap
    modifies w
    ensures Values(first.curr) == Values(second.curr) == Raw.Extract(content, events)
    ensures second.prev == first.curr
    ensures !HasDiff(second.prev.template, second.curr.template)
    ensures !HasDiff(second.prev.script, second.curr.script)
  {
    first := w.Diff(filename, content, events);
    second := w.Diff(filename, content, events);
    SameValuesQuiet(second.prev, second.curr);
  }

  /** A template that moves fires, with its new offsets. */
  lemma MovedTemplateFires(prev: Descriptor, curr: Descriptor)
    requires Values(prev) == Raw.Extract(P.TemplateHiText, P.TemplateHiEvents)
    requires Values(curr) == Raw.Extract(P.ShiftedText, P.ShiftedEvents)
    ensures HasDiff(prev.template, curr.template)
    ensures curr.template != null && curr.template.start == 27 && curr.template.end == 29
  {
    P.TemplateHi();
    P.Shifted();
  }

  /** A template that vanishes fires, and is handed `null`. */
  lemma VanishedTemplateFires(prev: Descriptor, curr: Descriptor)
    requires Values(prev) == Raw.Extract(P.TemplateHiText, P.TemplateHiEvents)
    requires Values(curr) == Raw.Extract("", [])
    ensures HasDiff(prev.template, curr.template)
    ensures curr.template == null
  {
    P.TemplateHi();
  }
}
