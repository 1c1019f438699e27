/** ActionSources: the registry of the sources that find a registry's actions. */
module Registration {

  /** An IActionSource. `EndpointActionSource` is the built-in one used as the
      default; any other registered source is known by its name. */
  datatype ActionSource = EndpointActionSource | Source(name: string)

  class ActionSources {
    /** `_sources`, which only ever grows. */
    var sources: seq<ActionSource>

    constructor ()
      ensures sources == []
    {
      sources := [];
    }

    /** Appends at the end, keeping every earlier source and duplicates. */
    method AddSource(source: ActionSource)
      modifies this
      ensures sources == old(sources) + [source]
    {
      sources := sources + [source];
    }

    /** Never empty; exactly the added sources, in insertion order, once any was added;
        reading it stores nothing, so the default is never kept. */
    function AllSources(): (r: seq<ActionSource>)
      reads this
      ensures |r| >= 1
      ensures sources != [] ==> r == sources
      ensures sources == [] ==> r == [EndpointActionSource]
    {
      if |sources| > 0 then sources else [EndpointActionSource]
    }
  }

  /** Registering a sequence of sources, one AddSource after another, on a fresh
      registry: afterwards AllSources is exactly what was added, in order, or the
      single default when nothing was. */
  method Register(added: seq<ActionSource>) returns (all: seq<ActionSource>)
    ensures added != [] ==> all == added
    ensures added == [] ==> all == [EndpointActionSource]
  {
    var registry := new ActionSources();
    var i := 0;
    while i < |added|
      invariant 0 <= i <= |added|
      invariant registry.sources == added[..i]
    {
      registry.AddSource(added[i]);
      i := i + 1;
    }
    assert added[..|added|] == added;
    all := registry.AllSources();
  }
}
