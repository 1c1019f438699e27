/** The Spark view-rendering classes: the entry cache of ViewEngine, ViewFactory with
    its view modifications, the nested-output holder, the three view renderers and the
    three render strategies. The Spark engine (compilation, IsCurrent, CreateInstance,
    RenderView) is an oracle over abstract entries and markup. */
module SparkRendering {
  import opened Common
  import opened SparkCache

  /** SparkItemDescriptors: the full-view and the partial-view descriptor of one view. */
  datatype ItemDescriptors = ItemDescriptors(viewDescriptor: Descriptor, partialDescriptor: Descriptor)

  /** ISparkViewEngine as an oracle: it logs every CreateEntry call and numbers the
      entries it returns; `stale` holds the entries whose templates changed since. */
  class SparkEngine {
    var compiled: seq<Descriptor>
    var stale: set<nat>

    constructor ()
      ensures compiled == [] && stale == {}
    {
      compiled, stale := [], {};
    }

    /** Compiles `descriptor` into a new entry, whose id no earlier entry has. */
    method CreateEntry(descriptor: Descriptor) returns (entry: Entry)
      modifies this`compiled
      ensures entry == Entry(|old(compiled)|, descriptor)
      ensures compiled == old(compiled) + [descriptor]
    {
      entry := Entry(|compiled|, descriptor);
      compiled := compiled + [descriptor];
    }

    predicate IsCurrent(entry: Entry)
      reads this
    {
      SparkCache.IsCurrent(entry, stale)
    }

    /** The environment edits the templates an entry was compiled from. */
    method TemplatesChanged(entry: Entry)
      requires entry.id < |compiled|
      modifies this`stale
      ensures stale == old(stale) + {entry.id}
    {
      stale := stale + {entry.id};
    }
  }

  /** The IDictionary<int, ISparkViewEntry> shared by all ViewEngines. `hash` stands for
      SparkViewDescriptor.GetHashCode, an arbitrary function fixed for the process. */
  class EntryCache {
    var slots: map<int, Entry>
    const hash: Descriptor -> int

    constructor (hash: Descriptor -> int)
      ensures slots == map[] && this.hash == hash
    {
      slots := map[];
      this.hash := hash;
    }
  }

  class ViewEngine {
    const cache: EntryCache
    const descriptors: ItemDescriptors
    const engine: SparkEngine

    constructor (cache: EntryCache, descriptors: ItemDescriptors, engine: SparkEngine)
      ensures this.cache == cache && this.descriptors == descriptors && this.engine == engine
    {
      this.cache := cache;
      this.descriptors := descriptors;
      this.engine := engine;
    }

    ghost function State(): CacheState
      reads cache, engine
    {
      CacheState(cache.slots, engine.compiled)
    }

    ghost predicate Valid()
      reads cache, engine
    {
      Consistent(State(), engine.stale, cache.hash)
    }

    /** The cache state and entry that a lookup of `d` leads to from `before`. */
    ghost function Next(before: CacheState, d: Descriptor): (CacheState, Entry)
      reads cache, engine
    {
      Resolve(before, engine.stale, cache.hash(d), d)
    }

    method GetViewEntry() returns (entry: Entry)
      requires Valid()
      modifies cache, engine`compiled
      ensures Valid()
      ensures (State(), entry) == Next(old(State()), descriptors.viewDescriptor)
    {
      entry := GetEntry(descriptors.viewDescriptor);
    }

    method GetPartialViewEntry() returns (entry: Entry)
      requires Valid()
      modifies cache, engine`compiled
      ensures Valid()
      ensures (State(), entry) == Next(old(State()), descriptors.partialDescriptor)
    {
      entry := GetEntry(descriptors.partialDescriptor);
    }

    /** getEntry: look the hash up; on a miss or a stale entry compile a new one and
        overwrite the slot. The lock around the write is not modelled. */
    method GetEntry(descriptor: Descriptor) returns (entry: Entry)
      requires Valid()
      modifies cache, engine`compiled
      ensures Valid()
      ensures (State(), entry) == Next(old(State()), descriptor)
    {
      ResolveConsistent(State(), engine.stale, cache.hash, descriptor);
      var key := cache.hash(descriptor);
      var found := if key in cache.slots then Some(cache.slots[key]) else None;
      if found.None? || !engine.IsCurrent(found.value) {
        entry := engine.CreateEntry(descriptor);
        cache.slots := cache.slots[key := entry];
      } else {
        entry := found.value;
      }
    }
  }

  /** What RenderView writes: the markup of one view instance, known by the entry it was
      created from and the modifications applied to it. */
  datatype Markup = Markup(entry: nat, modifications: seq<nat>)

  /** A StringWriter. */
  class Buffer {
    var text: seq<Markup>

    constructor ()
      ensures text == []
    {
      text := [];
    }
  }

  /** A view instance (SparkViewBase): its entry, its Output writer and the ids of the
      modifications applied to it so far, which is all a modification can observe. */
  class View {
    const entry: Entry
    var output: Buffer?
    var applied: seq<nat>

    /** ISparkViewEntry.CreateInstance: a new, unmodified instance. */
    constructor (entry: Entry)
      ensures this.entry == entry && output == null && applied == []
    {
      this.entry := entry;
      output, applied := null, [];
    }

    method RenderView(writer: Buffer)
      modifies writer
      ensures writer.text == old(writer.text) + [Markup(entry.id, applied)]
    {
      writer.text := writer.text + [Markup(entry.id, applied)];
    }
  }

  /** An ISparkViewModification: `applies` is its Applies, asked of the view as it is
      at that moment; Modify records the modification on the view. */
  datatype Modification = Modification(id: nat, applies: (Entry, seq<nat>) -> bool)

  /** The modifications a view ends up with: in registration order, each Applies asked
      after the earlier modifications have run (Where and Each stream lazily). */
  function Applied(modifications: seq<Modification>, entry: Entry, applied: seq<nat>): seq<nat>
    decreases |modifications|
  {
    if modifications == [] then applied
    else
      var m := modifications[0];
      Applied(modifications[1..], entry, if m.applies(entry, applied) then applied + [m.id] else applied)
  }

  function Ids(modifications: seq<Modification>): seq<nat>
  {
    seq(|modifications|, i requires 0 <= i < |modifications| => modifications[i].id)
  }

  /** `xs` is `ys` with some elements left out, order kept. */
  predicate IsSubsequence(xs: seq<nat>, ys: seq<nat>)
    decreases |ys|
  {
    xs == [] || (ys != [] && (if xs[0] == ys[0] then IsSubsequence(xs[1..], ys[1..]) else IsSubsequence(xs, ys[1..])))
  }

  /** Applying modifications only appends to what the view had, and what it appends is
      the registered modifications, each at most once, in registration order. */
  lemma {:induction false} AppliedInRegistrationOrder(modifications: seq<Modification>, entry: Entry, applied: seq<nat>)
    ensures var r := Applied(modifications, entry, applied);
            |applied| <= |r| && r[..|applied|] == applied && IsSubsequence(r[|applied|..], Ids(modifications))
    decreases |modifications|
  {
    if modifications != [] {
      var m := modifications[0];
      var next := if m.applies(entry, applied) then applied + [m.id] else applied;
      AppliedInRegistrationOrder(modifications[1..], entry, next);
      var r := Applied(modifications, entry, applied);
      assert Ids(modifications) == [m.id] + Ids(modifications[1..]);
      assert r[..|next|] == next;
      if m.applies(entry, applied) {
        assert r[|applied|..] == [m.id] + r[|next|..];
      } else {
        // The first modification did not apply: the rest is a subsequence of the later ids.
        assert Ids(modifications)[1..] == Ids(modifications[1..]);
        SubsequenceWeaken(r[|applied|..], Ids(modifications));
      }
    }
  }

  /** Dropping the first element of a subsequence leaves a subsequence. */
  lemma {:induction false} SubsequenceOfTail(xs: seq<nat>, ys: seq<nat>)
    requires xs != [] && IsSubsequence(xs, ys)
    ensures IsSubsequence(xs[1..], ys)
    decreases |ys|, 1
  {
    if xs[0] != ys[0] {
      SubsequenceOfTail(xs, ys[1..]);
    }
    SubsequenceWeaken(xs[1..], ys);
  }

  /** A subsequence of the tail of `ys` is a subsequence of `ys`. */
  lemma {:induction false} SubsequenceWeaken(xs: seq<nat>, ys: seq<nat>)
    requires ys != [] && IsSubsequence(xs, ys[1..])
    ensures IsSubsequence(xs, ys)
    decreases |ys|, 0
  {
    if xs != [] && xs[0] == ys[0] {
      SubsequenceOfTail(xs, ys[1..]);
    }
  }

  /** Because each Applies sees the effect of the earlier modifications, the outcome
      depends on registration order: a modification that applies only to views already
      modified by another takes effect after that one, and not before it. */
  lemma ApplicationOrderMatters(entry: Entry)
    ensures var first := Modification(1, (e: Entry, a: seq<nat>) => true);
            var second := Modification(2, (e: Entry, a: seq<nat>) => 1 in a);
            && Applied([first, second], entry, []) == [1, 2]
            && Applied([second, first], entry, []) == [1]
  {
    var first := Modification(1, (e: Entry, a: seq<nat>) => true);
    var second := Modification(2, (e: Entry, a: seq<nat>) => 1 in a);
    assert [first, second][1..] == [second];
    assert [second, first][1..] == [first];
    assert Applied([second], entry, [1]) == Applied([], entry, [1, 2]);
    assert Applied([first], entry, []) == Applied([], entry, [1]);
  }

  class ViewFactory {
    const viewEngine: ViewEngine
    const modifications: seq<Modification>

    constructor (viewEngine: ViewEngine, modifications: seq<Modification>)
      ensures this.viewEngine == viewEngine && this.modifications == modifications
    {
      this.viewEngine := viewEngine;
      this.modifications := modifications;
    }

    /** A new instance of the full view's entry, with its applicable modifications run. */
    method GetView() returns (view: View)
      requires viewEngine.Valid()
      modifies viewEngine.cache, viewEngine.engine`compiled
      ensures viewEngine.Valid() && fresh(view)
      ensures (viewEngine.State(), view.entry) == viewEngine.Next(old(viewEngine.State()), viewEngine.descriptors.viewDescriptor)
      ensures view.output == null && view.applied == Applied(modifications, view.entry, [])
    {
      var entry := viewEngine.GetViewEntry();
      view := new View(entry);
      ApplyModifications(view);
    }

    /** A new instance of the partial view's entry, with its applicable modifications run. */
    method GetPartialView() returns (view: View)
      requires viewEngine.Valid()
      modifies viewEngine.cache, viewEngine.engine`compiled
      ensures viewEngine.Valid() && fresh(view)
      ensures (viewEngine.State(), view.entry) == viewEngine.Next(old(viewEngine.State()), viewEngine.descriptors.partialDescriptor)
      ensures view.output == null && view.applied == Applied(modifications, view.entry, [])
    {
      var entry := viewEngine.GetPartialViewEntry();
      view := new View(entry);
      ApplyModifications(view);
    }

    /** applyModifications: Modify, in order, every modification whose Applies holds at
        its turn. */
    method ApplyModifications(view: View)
      modifies view`applied
      ensures view.applied == Applied(modifications, view.entry, old(view.applied))
    {
      var i := 0;
      while i < |modifications|
        invariant 0 <= i <= |modifications|
        invariant Applied(modifications[i..], view.entry, view.applied)
                  == Applied(modifications, view.entry, old(view.applied))
      {
        var m := modifications[i];
        assert modifications[i..][1..] == modifications[i + 1..];
        if m.applies(view.entry, view.applied) {
          view.applied := view.applied + [m.id];
        }
        i := i + 1;
      }
    }
  }

  /** IOutputWriter: every WriteHtml call records the writer's text at that moment. */
  class OutputWriter {
    var written: seq<seq<Markup>>

    constructor ()
      ensures written == []
    {
      written := [];
    }

    method WriteHtml(writer: Buffer)
      modifies this
      ensures written == old(written) + [writer.text]
    {
      written := written + [writer.text];
    }
  }

  /** NestedOutput. The delegate `() => view.Output` that SetWriter receives is
      represented by the view it reads, so Writer is that view's Output at the time it
      is read; null means no delegate was set. */
  class NestedOutput {
    var source: View?

    constructor ()
      ensures !IsActive()
    {
      source := null;
    }

    /** Installs the delegate, replacing any earlier one; nothing ever clears it. */
    method SetWriter(view: View)
      modifies this
      ensures IsActive() && source == view
    {
      source := view;
    }

    predicate IsActive()
      reads this
    {
      source != null
    }

    /** The Writer property: the delegate is invoked at each read, so it yields the
        view's Output as it is at that moment. `None` when invoking it fails (no
        delegate set, a NullReferenceException) or yields no writer. */
    function Writer(): Option<Buffer>
      reads this, source
    {
      if source != null && source.output != null then Some(source.output) else None
    }

    /** The writer Writer would return, as a frame. */
    function Target(): set<Buffer>
      reads this, source
    {
      if source != null && source.output != null then {source.output} else {}
    }
  }

  /** Whether a render ran to the end, or failed on the nested writer. */
  datatype RenderOutcome = Rendered | NullReference

  class PartialViewRenderer {
    const viewFactory: ViewFactory
    const nestedOutput: NestedOutput
    const outputWriter: OutputWriter

    constructor (viewFactory: ViewFactory, nestedOutput: NestedOutput, outputWriter: OutputWriter)
      ensures this.viewFactory == viewFactory && this.nestedOutput == nestedOutput
      ensures this.outputWriter == outputWriter
    {
      this.viewFactory := viewFactory;
      this.nestedOutput := nestedOutput;
      this.outputWriter := outputWriter;
    }

    /** The state after a top-level render of the partial view, from the given cache
        state and output trace: the partial view was looked up and instantiated, it
        rendered into its own new buffer, the buffer was written out once, and the
        nested output now reads that view's Output. */
    ghost predicate RenderedFrom(before: CacheState, written: seq<seq<Markup>>)
      reads viewFactory.viewEngine.cache, viewFactory.viewEngine.engine, nestedOutput, outputWriter,
            nestedOutput.source, nestedOutput.Target()
    {
      var engine := viewFactory.viewEngine;
      var view := nestedOutput.source;
      && view != null && view.output != null
      && (engine.State(), view.entry) == engine.Next(before, engine.descriptors.partialDescriptor)
      && view.applied == Applied(viewFactory.modifications, view.entry, [])
      && nestedOutput.Writer() == Some(view.output)
      && view.output.text == [Markup(view.entry.id, view.applied)]
      && outputWriter.written == written + [view.output.text]
    }

    method Render()
      requires viewFactory.viewEngine.Valid()
      modifies viewFactory.viewEngine.cache, viewFactory.viewEngine.engine`compiled, nestedOutput, outputWriter
      ensures viewFactory.viewEngine.Valid()
      ensures RenderedFrom(old(viewFactory.viewEngine.State()), old(outputWriter.written))
      ensures fresh(nestedOutput.source) && fresh(nestedOutput.Target())
    {
      var partial := viewFactory.GetPartialView();
      var writer := new Buffer();
      partial.output := writer;
      nestedOutput.SetWriter(partial);
      partial.RenderView(writer);
      outputWriter.WriteHtml(writer);
    }
  }

  class NestedViewRenderer {
    const viewFactory: ViewFactory
    const nestedOutput: NestedOutput

    constructor (viewFactory: ViewFactory, nestedOutput: NestedOutput)
      ensures this.viewFactory == viewFactory && this.nestedOutput == nestedOutput
    {
      this.viewFactory := viewFactory;
      this.nestedOutput := nestedOutput;
    }

    /** The state after a nested render, from the given cache state, nested writer and
        that writer's text: the partial view was looked up and instantiated; if there was
        a writer, the partial's markup was appended to it, otherwise the render failed. */
    ghost predicate RenderedFrom(before: CacheState, writer: Option<Buffer>, text: seq<Markup>, outcome: RenderOutcome)
      reads viewFactory.viewEngine.cache, viewFactory.viewEngine.engine, if writer.Some? then {writer.value} else {}
    {
      var engine := viewFactory.viewEngine;
      var (after, entry) := engine.Next(before, engine.descriptors.partialDescriptor);
      && engine.State() == after
      && (writer.None? ==> outcome == NullReference)
      && (writer.Some? ==>
            outcome == Rendered
            && writer.value.text == text + [Markup(entry.id, Applied(viewFactory.modifications, entry, []))])
    }

    /** Renders the partial view into the nested output's current writer: no new
        buffer, no WriteHtml. */
    method Render() returns (outcome: RenderOutcome)
      requires viewFactory.viewEngine.Valid()
      modifies viewFactory.viewEngine.cache, viewFactory.viewEngine.engine`compiled, nestedOutput.Target()
      ensures viewFactory.viewEngine.Valid()
      ensures RenderedFrom(old(viewFactory.viewEngine.State()), old(nestedOutput.Writer()),
                           if old(nestedOutput.Writer()).Some? then old(nestedOutput.Writer().value.text) else [],
                           outcome)
    {
      var partial := viewFactory.GetPartialView();
      var writer := nestedOutput.Writer();
      if writer.None? {
        outcome := NullReference;
      } else {
        partial.RenderView(writer.value);
        outcome := Rendered;
      }
    }
  }

  class DefaultViewRenderer {
    const viewFactory: ViewFactory
    const nestedOutput: NestedOutput
    const outputWriter: OutputWriter

    constructor (viewFactory: ViewFactory, nestedOutput: NestedOutput, outputWriter: OutputWriter)
      ensures this.viewFactory == viewFactory && this.nestedOutput == nestedOutput
      ensures this.outputWriter == outputWriter
    {
      this.viewFactory := viewFactory;
      this.nestedOutput := nestedOutput;
      this.outputWriter := outputWriter;
    }

    /** As for the partial renderer, but with the full view. */
    ghost predicate RenderedFrom(before: CacheState, written: seq<seq<Markup>>)
      reads viewFactory.viewEngine.cache, viewFactory.viewEngine.engine, nestedOutput, outputWriter,
            nestedOutput.source, nestedOutput.Target()
    {
      var engine := viewFactory.viewEngine;
      var view := nestedOutput.source;
      && view != null && view.output != null
      && (engine.State(), view.entry) == engine.Next(before, engine.descriptors.viewDescriptor)
      && view.applied == Applied(viewFactory.modifications, view.entry, [])
      && nestedOutput.Writer() == Some(view.output)
      && view.output.text == [Markup(view.entry.id, view.applied)]
      && outputWriter.written == written + [view.output.text]
    }

    method Render()
      requires viewFactory.viewEngine.Valid()
      modifies viewFactory.viewEngine.cache, viewFactory.viewEngine.engine`compiled, nestedOutput, outputWriter
      ensures viewFactory.viewEngine.Valid()
      ensures RenderedFrom(old(viewFactory.viewEngine.State()), old(outputWriter.written))
      ensures fresh(nestedOutput.source) && fresh(nestedOutput.Target())
    {
      var view := viewFactory.GetView();
      var writer := new Buffer();
      view.output := writer;
      nestedOutput.SetWriter(view);
      view.RenderView(writer);
      outputWriter.WriteHtml(writer);
    }
  }

  /** NestedRenderStrategy, wired to the nested view renderer. */
  class NestedRenderStrategy {
    const nestedOutput: NestedOutput
    const viewRenderer: NestedViewRenderer

    constructor (nestedOutput: NestedOutput, viewRenderer: NestedViewRenderer)
      ensures this.nestedOutput == nestedOutput && this.viewRenderer == viewRenderer
    {
      this.nestedOutput := nestedOutput;
      this.viewRenderer := viewRenderer;
    }

    predicate Applies()
      reads nestedOutput
    {
      nestedOutput.IsActive()
    }

    /** Renders once through the nested renderer. When both share the request's
        NestedOutput, the render reaches its writer exactly when the strategy applied
        (and the enclosing view has an Output), and fails when it did not apply. */
    method Invoke() returns (outcome: RenderOutcome)
      requires viewRenderer.viewFactory.viewEngine.Valid()
      modifies viewRenderer.viewFactory.viewEngine.cache, viewRenderer.viewFactory.viewEngine.engine`compiled,
               viewRenderer.nestedOutput.Target()
      ensures viewRenderer.viewFactory.viewEngine.Valid()
      ensures viewRenderer.RenderedFrom(old(viewRenderer.viewFactory.viewEngine.State()), old(viewRenderer.nestedOutput.Writer()),
                                        if old(viewRenderer.nestedOutput.Writer()).Some?
                                        then old(viewRenderer.nestedOutput.Writer().value.text) else [],
                                        outcome)
      ensures viewRenderer.nestedOutput == nestedOutput ==>
                (outcome == Rendered <==> old(Applies()) && old(nestedOutput.source.output) != null)
    {
      outcome := viewRenderer.Render();
    }
  }

  /** AjaxRenderStrategy, wired to the partial view renderer. */
  class AjaxRenderStrategy {
    const viewRenderer: PartialViewRenderer
    const requestData: RequestData

    constructor (viewRenderer: PartialViewRenderer, requestData: RequestData)
      ensures this.viewRenderer == viewRenderer && this.requestData == requestData
    {
      this.viewRenderer := viewRenderer;
      this.requestData := requestData;
    }

    predicate Applies()
    {
      requestData.isAjaxRequest
    }

    /** Renders once through the partial view renderer. */
    method Invoke()
      requires viewRenderer.viewFactory.viewEngine.Valid()
      modifies viewRenderer.viewFactory.viewEngine.cache, viewRenderer.viewFactory.viewEngine.engine`compiled,
               viewRenderer.nestedOutput, viewRenderer.outputWriter
      ensures viewRenderer.viewFactory.viewEngine.Valid()
      ensures viewRenderer.RenderedFrom(old(viewRenderer.viewFactory.viewEngine.State()), old(viewRenderer.outputWriter.written))
      ensures fresh(viewRenderer.nestedOutput.source) && fresh(viewRenderer.nestedOutput.Target())
    {
      viewRenderer.Render();
    }
  }

  /** DefaultRenderStrategy, wired to the default (full view) renderer. */
  class DefaultRenderStrategy {
    const viewRenderer: DefaultViewRenderer

    constructor (viewRenderer: DefaultViewRenderer)
      ensures this.viewRenderer == viewRenderer
    {
      this.viewRenderer := viewRenderer;
    }

    predicate Applies()
    {
      true
    }

    /** Renders once through the default view renderer. */
    method Invoke()
      requires viewRenderer.viewFactory.viewEngine.Valid()
      modifies viewRenderer.viewFactory.viewEngine.cache, viewRenderer.viewFactory.viewEngine.engine`compiled,
               viewRenderer.nestedOutput, viewRenderer.outputWriter
      ensures viewRenderer.viewFactory.viewEngine.Valid()
      ensures viewRenderer.RenderedFrom(old(viewRenderer.viewFactory.viewEngine.State()), old(viewRenderer.outputWriter.written))
      ensures fresh(viewRenderer.nestedOutput.source) && fresh(viewRenderer.nestedOutput.Target())
    {
      viewRenderer.Render();
    }
  }

  /** Reading Writer from a holder on which SetWriter was never called is the failure
      case: the null delegate is invoked. */
  method WriterBeforeSetWriter() returns (w: Option<Buffer>)
    ensures w == None
  {
    var nestedOutput := new NestedOutput();
    w := nestedOutput.Writer();
  }

  /** SetWriter installs `() => view.Output`, not the writer itself: when the view's
      Output is replaced after SetWriter, Writer yields the replacement. */
  method WriterFollowsLaterOutput() returns (w: Option<Buffer>, first: Buffer, later: Buffer)
    ensures first != later
    ensures w == Some(later)
  {
    var view := new View(Entry(0, Descriptor([])));
    first := new Buffer();
    later := new Buffer();
    view.output := first;
    var nestedOutput := new NestedOutput();
    nestedOutput.SetWriter(view);
    view.output := later;
    w := nestedOutput.Writer();
  }

  /** When each of the three strategies is applicable, for strategies sharing one
      request's NestedOutput and RequestData: nested exactly when the NestedOutput is
      active, ajax exactly for ajax requests, default always; so at least one applies
      in every state. Which one runs is decided outside these classes. */
  lemma StrategyApplicability(nestedOutput: NestedOutput, requestData: RequestData,
                              nested: NestedRenderStrategy, ajax: AjaxRenderStrategy,
                              default: DefaultRenderStrategy)
    requires nested.nestedOutput == nestedOutput && ajax.requestData == requestData
    ensures nested.Applies() <==> nestedOutput.source != null
    ensures ajax.Applies() <==> requestData.isAjaxRequest
    ensures default.Applies()
    ensures nested.Applies() || ajax.Applies() || default.Applies()
  {
  }
}
