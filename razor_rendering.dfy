/** The Razor render strategies and RenderRazorBehavior, as traces of the calls they
    make on the render action, the renderer and the inner behavior. */
module RazorRendering {
  import opened Common

  /** A call on IRenderAction (the strategies' argument). */
  datatype ActionCall = Render | RenderPartial

  /** DefaultRenderStrategy and AjaxRenderStrategy; the latter holds the request data. */
  datatype RenderStrategy = DefaultRenderStrategy | AjaxRenderStrategy(requestData: RequestData)

  function Applies(s: RenderStrategy): bool
  {
    match s
    case DefaultRenderStrategy => true
    case AjaxRenderStrategy(requestData) => requestData.isAjaxRequest
  }

  /** The calls Invoke(action) makes on the action. */
  function Invoke(s: RenderStrategy): seq<ActionCall>
  {
    match s
    case DefaultRenderStrategy => [Render]
    case AjaxRenderStrategy(_) => [RenderPartial]
  }

  /** The default strategy applies to every request and renders the full view once;
      the ajax strategy applies exactly to ajax requests and renders the partial once.
      Neither ever makes the other kind of call. */
  lemma StrategyContracts(s: RenderStrategy)
    ensures s.DefaultRenderStrategy? ==> Applies(s)
    ensures s.AjaxRenderStrategy? ==> (Applies(s) <==> s.requestData.isAjaxRequest)
    ensures Count(Invoke(s), Render) == (if s.DefaultRenderStrategy? then 1 else 0)
    ensures Count(Invoke(s), RenderPartial) == (if s.AjaxRenderStrategy? then 1 else 0)
    ensures |Invoke(s)| == 1
  {
  }

  /** What a behavior chain does, in order. Renderer and behavior ids tell the levels
      apart; `Other` is any IActionBehavior that is not a RenderRazorBehavior, whose own
      work is opaque. */
  datatype Event =
    | Rendered(renderer: nat)           // IViewRenderer.Render()
    | RenderedPartial(renderer: nat)    // IViewRenderer.RenderPartial()
    | OtherInvoked(behavior: nat)       // Invoke() of a non-Razor inner behavior
    | OtherInvokedPartial(behavior: nat)

  /** RenderRazorBehavior with its renderer and its InsideBehavior (null is `None`). */
  datatype Behavior =
    | RenderRazorBehavior(renderer: nat, insideBehavior: Option<Behavior>)
    | Other(id: nat)

  function InvokeTrace(b: Behavior): seq<Event>
  {
    match b
    case Other(id) => [OtherInvoked(id)]
    case RenderRazorBehavior(r, inside) =>
      [Rendered(r)] + (match inside case None => [] case Some(ib) => InvokeTrace(ib))
  }

  function InvokePartialTrace(b: Behavior): seq<Event>
  {
    match b
    case Other(id) => [OtherInvokedPartial(id)]
    case RenderRazorBehavior(r, inside) =>
      [RenderedPartial(r)] + (match inside case None => [] case Some(ib) => InvokePartialTrace(ib))
  }

  /** Invoke renders first and hands over to the inner behavior second; without an
      inner behavior it renders once and does nothing else. */
  lemma InvokeRendersFirst(r: nat, inside: Option<Behavior>)
    ensures var t := InvokeTrace(RenderRazorBehavior(r, inside));
            && t[0] == Rendered(r)
            && t[1..] == (if inside.Some? then InvokeTrace(inside.value) else [])
  {
  }

  /** The renderers of the Razor levels of a chain, outermost first. */
  function Renderers(b: Behavior): seq<nat>
  {
    match b
    case Other(_) => []
    case RenderRazorBehavior(r, inside) =>
      [r] + (match inside case None => [] case Some(ib) => Renderers(ib))
  }

  /** The chain ends in a non-Razor behavior, and that one's id. */
  function Innermost(b: Behavior): Option<nat>
  {
    match b
    case Other(id) => Some(id)
    case RenderRazorBehavior(_, inside) =>
      match inside case None => None case Some(ib) => Innermost(ib)
  }

  /** Invoking a chain renders every Razor level exactly once, outermost first, then
      invokes the non-Razor behavior the chain ends in, if any. */
  lemma {:induction false} InvokeChainOrder(b: Behavior)
    ensures InvokeTrace(b) ==
            seq(|Renderers(b)|, i requires 0 <= i < |Renderers(b)| => Rendered(Renderers(b)[i]))
            + (match Innermost(b) case None => [] case Some(id) => [OtherInvoked(id)])
  {
    match b
    case Other(_) =>
    case RenderRazorBehavior(r, inside) =>
      match inside
      case None =>
      case Some(ib) =>
        InvokeChainOrder(ib);
  }

  /** Replace each full-render event by its partial counterpart. */
  function AsPartial(e: Event): Event
  {
    match e
    case Rendered(r) => RenderedPartial(r)
    case OtherInvoked(id) => OtherInvokedPartial(id)
    case _ => e
  }

  /** InvokePartial walks the same chain as Invoke and makes, level for level, the
      partial counterpart of each call; so it never calls Render or an inner Invoke. */
  lemma {:induction false} InvokePartialMirrorsInvoke(b: Behavior)
    ensures |InvokePartialTrace(b)| == |InvokeTrace(b)|
    ensures forall i :: 0 <= i < |InvokeTrace(b)| ==>
              InvokePartialTrace(b)[i] == AsPartial(InvokeTrace(b)[i])
    ensures forall i :: 0 <= i < |InvokePartialTrace(b)| ==>
              !InvokePartialTrace(b)[i].Rendered? && !InvokePartialTrace(b)[i].OtherInvoked?
  {
    match b
    case Other(_) =>
    case RenderRazorBehavior(r, inside) =>
      match inside
      case None =>
      case Some(ib) =>
        InvokePartialMirrorsInvoke(ib);
        var t, p := InvokeTrace(ib), InvokePartialTrace(ib);
        assert InvokeTrace(b) == [Rendered(r)] + t;
        assert InvokePartialTrace(b) == [RenderedPartial(r)] + p;
  }
}
