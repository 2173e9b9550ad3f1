/** An image reference: a displayable built from an image name (or from a
    displayable) that finds its target in the image registry the first time
    it is rendered, sent an event, placed or visited, and delegates to that
    target from then on. */
module ImageReferences {

  import opened Wrappers
  import opened ImageNames
  import opened Displayables
  import opened Resolution

  /** The message of a failed entry point, if it failed. */
  function Raised<T>(r: Result<T, string>): Option<string>
  {
    if r.Failure? then Some(r.error) else None
  }

  class ImageReference {
    /** The name given at construction, or the displayable given instead. */
    const name: Reference
    /** The placement values of this reference's own style. */
    const style: Placement
    /** The memoised target; unset until a search stores one. */
    var target: Option<Displayable>

    /** Every registry key looked up so far, in order. */
    ghost var lookups: seq<ImageName>
    /** Every `parameterize` call made so far, in order. */
    ghost var calls: seq<Call>
    /** How many times the target has been searched for. */
    ghost var searches: nat

    constructor (name: Reference, style: Placement)
      ensures this.name == name && this.style == style
      ensures target.None? && lookups == [] && calls == [] && searches == 0
    {
      this.name := name;
      this.style := style;
      target := None;
      lookups := [];
      calls := [];
      searches := 0;
    }

    /** What one search does to the target and the logs. */
    twostate predicate Searched(images: Registry, debug: bool, new raised: Option<string>)
      reads this
    {
      var o := Resolve(images, name, debug);
      && raised == o.raised
      && target == (if o.target.Some? then o.target else old(target))
      && lookups == old(lookups) + ProbesOf(images, name)
      && calls == old(calls) + CallsOf(images, name)
      && searches == old(searches) + 1
    }

    /** An entry point searches only when no target is stored yet; once one
        is, it is kept and the registry is not consulted again. */
    twostate predicate ResolvedOnDemand(images: Registry, debug: bool, new raised: Option<string>)
      reads this
    {
      && (old(target).Some? ==>
            && target == old(target) && raised.None?
            && lookups == old(lookups) && calls == old(calls) && searches == old(searches))
      && (old(target).None? ==> Searched(images, debug, raised))
    }

    /** Stores the error text as the target and raises its message when
        debug is on. */
    method Error(msg: string, debug: bool) returns (raised: Option<string>)
      modifies this`target
      ensures target == Some(ErrorText(msg))
      ensures raised == if debug then Some(msg) else None
    {
      target := Some(ErrorText(msg));
      if debug {
        return Some(msg);
      }
      return None;
    }

    /** Finds the target: the displayable itself, or the factory of the
        longest registered prefix of the name, parameterized with the tokens
        peeled off after it. */
    method FindTarget(images: Registry, debug: bool) returns (raised: Option<string>)
      modifies this`target, this`lookups, this`calls, this`searches
      ensures Searched(images, debug, raised)
    {
      searches := searches + 1;
      match name
      case Direct(d) =>
        target := Some(d);
        return None;
      case Named(full) =>
        var name := full;
        var parameters: seq<string> := [];
        while |name| > 0
          invariant name + parameters == full
          invariant LongestKey(images, name) == LongestKey(images, full)
          invariant old(lookups) + Probes(images, full) == lookups + Probes(images, name)
          invariant target == old(target) && calls == old(calls)
          invariant searches == old(searches) + 1
          decreases |name|
        {
          lookups := lookups + [name];
          if name in images {
            var factory := images[name];
            calls := calls + [Call(name, parameters)];
            assert full[..|name|] == name && full[|name|..] == parameters;
            assert name[..|name|] == name;
            var result := factory.parameterize(name, parameters);
            match result {
              case Success(d) =>
                target := Some(d);
                raised := None;
              case Failure(e) =>
                if debug {
                  return Some(e);
                }
                raised := Error(e, debug);
            }
            return;
          }
          assert LongestKey(images, name) == LongestKey(images, name[..|name| - 1]);
          parameters := [name[|name| - 1]] + parameters;
          name := name[..|name| - 1];
        }
        raised := Error(NotFoundMessage(full), debug);
    }

    /** Searches for the target unless one is stored already. */
    method EnsureTarget(images: Registry, debug: bool) returns (raised: Option<string>)
      modifies this`target, this`lookups, this`calls, this`searches
      ensures ResolvedOnDemand(images, debug, raised)
      ensures raised.None? ==> target.Some?
    {
      raised := None;
      if target.None? {
        raised := FindTarget(images, debug);
        ResolveStoresUnlessRaised(images, name, debug);
      }
    }

    /** Delivers an event at position (x, y) and scene time st to the
        target; `handle` is the target's own event handler. */
    method Event<E, R>(images: Registry, debug: bool,
                       handle: (Displayable, E, int, int, real) -> R,
                       ev: E, x: int, y: int, st: real)
      returns (r: Result<R, string>)
      modifies this`target, this`lookups, this`calls, this`searches
      ensures ResolvedOnDemand(images, debug, Raised(r))
      ensures r.Success? ==> target.Some? && r.value == handle(target.value, ev, x, y, st)
    {
      var raised := EnsureTarget(images, debug);
      if raised.Some? {
        return Failure(raised.value);
      }
      return Success(handle(target.value, ev, x, y, st));
    }

    /** Renders the target at the requested size and times; `render` is the
        renderer of the displayable tree. */
    method Render<S>(images: Registry, debug: bool,
                     render: (Displayable, int, int, real, real) -> S,
                     width: int, height: int, st: real, at: real)
      returns (r: Result<S, string>)
      modifies this`target, this`lookups, this`calls, this`searches
      ensures ResolvedOnDemand(images, debug, Raised(r))
      ensures r.Success? ==> target.Some? && r.value == render(target.value, width, height, st, at)
    {
      var raised := EnsureTarget(images, debug);
      if raised.Some? {
        return Failure(raised.value);
      }
      return Success(render(target.value, width, height, st, at));
    }

    /** The target's placement with each component it leaves unset taken
        from this reference's style; `placementOf` is the target's own
        `get_placement`. */
    method GetPlacement(images: Registry, debug: bool, placementOf: Displayable -> Placement)
      returns (r: Result<Placement, string>)
      modifies this`target, this`lookups, this`calls, this`searches
      ensures ResolvedOnDemand(images, debug, Raised(r))
      ensures r.Success? ==> target.Some? && r.value == FillFromStyle(placementOf(target.value), style)
    {
      var raised := EnsureTarget(images, debug);
      if raised.Some? {
        return Failure(raised.value);
      }
      var own := placementOf(target.value);
      var xpos, ypos, xanchor, yanchor := own.xpos, own.ypos, own.xanchor, own.yanchor;
      if xpos.None? {
        xpos := style.xpos;
      }
      if ypos.None? {
        ypos := style.ypos;
      }
      if xanchor.None? {
        xanchor := style.xanchor;
      }
      if yanchor.None? {
        yanchor := style.yanchor;
      }
      return Success(Placement(xpos, ypos, xanchor, yanchor));
    }

    /** The children of the reference: exactly its target. */
    method Visit(images: Registry, debug: bool) returns (r: Result<seq<Displayable>, string>)
      modifies this`target, this`lookups, this`calls, this`searches
      ensures ResolvedOnDemand(images, debug, Raised(r))
      ensures r.Success? ==> target.Some? && r.value == [target.value]
    {
      var raised := EnsureTarget(images, debug);
      if raised.Some? {
        return Failure(raised.value);
      }
      return Success([target.value]);
    }
  }

  /** A fresh reference visited twice: the second visit returns what the
      first returned whenever the first succeeded, and with debug off the
      first always succeeds, with the displayable itself for a direct
      reference. */
  method VisitTwice(images: Registry, debug: bool, name: Reference, style: Placement)
    returns (first: Result<seq<Displayable>, string>, second: Result<seq<Displayable>, string>)
    ensures first.Success? ==> second == first && |first.value| == 1
    ensures !debug ==> first.Success?
    ensures name.Direct? ==> first == Success([name.displayable])
  {
    var reference := new ImageReference(name, style);
    first := reference.Visit(images, debug);
    ResolveStoresUnlessRaised(images, name, debug);
    second := reference.Visit(images, debug);
  }
}
