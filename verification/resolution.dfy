/** The specification of named-image resolution: which registry keys an image
    reference looks up, which factory call it makes, and what it ends up
    with. The imperative search in `ImageReferences` is proved against these
    functions. */
module Resolution {

  import opened Wrappers
  import opened ImageNames
  import opened Displayables

  /** An image factory as the registry stores it; `parameterize` receives the
      matched name and the tokens peeled off after it, and may fail with a
      message. */
  datatype Factory = Factory(parameterize: (ImageName, seq<string>) -> Result<Displayable, string>)

  /** The images defined by image statements, keyed by their exact names. */
  type Registry = map<ImageName, Factory>

  /** What an image reference is built from: a name, or a displayable that
      is used directly. */
  datatype Reference = Named(name: ImageName) | Direct(displayable: Displayable)

  /** One call of a factory's `parameterize`, with its two arguments. */
  datatype Call = Call(prefix: ImageName, parameters: seq<string>)

  /** The effect of one resolution: the target it stores, if it stores one,
      and the message of the exception it raises, if it raises one. */
  datatype Outcome = Outcome(target: Option<Displayable>, raised: Option<string>)

  /** The length of the longest non-empty prefix of `name` that is a key of
      the registry, if there is one. */
  function LongestKey(images: Registry, name: ImageName): (k: Option<nat>)
    ensures k.Some? ==> 0 < k.value <= |name| && name[..k.value] in images
    ensures k.Some? ==> forall j :: k.value < j <= |name| ==> name[..j] !in images
    ensures k.None? ==> forall j :: 0 < j <= |name| ==> name[..j] !in images
    decreases |name|
  {
    if |name| == 0 then None
    else if name in images then (assert name[..|name|] == name; Some(|name|))
    else
      var shorter := name[..|name| - 1];
      assert name[..|name|] == name;
      assert forall j :: 0 <= j <= |shorter| ==> shorter[..j] == name[..j];
      LongestKey(images, shorter)
  }

  /** The registry keys the search looks up, in order: the name itself, then
      ever shorter prefixes, up to and including the first one that is a key. */
  function Probes(images: Registry, name: ImageName): seq<ImageName>
    decreases |name|
  {
    if |name| == 0 then []
    else if name in images then [name]
    else [name] + Probes(images, name[..|name| - 1])
  }

  /** The `parameterize` calls the search makes: one call at the longest
      registered prefix, or none. */
  function Calls(images: Registry, name: ImageName): seq<Call>
  {
    match LongestKey(images, name)
    case None => []
    case Some(k) => [Call(name[..k], name[k..])]
  }

  function ProbesOf(images: Registry, ref: Reference): seq<ImageName>
  {
    match ref
    case Direct(_) => []
    case Named(name) => Probes(images, name)
  }

  function CallsOf(images: Registry, ref: Reference): seq<Call>
  {
    match ref
    case Direct(_) => []
    case Named(name) => Calls(images, name)
  }

  /** The message of a failed resolution of a name, if it fails: the name is
      not found, or its factory rejects the parameters. */
  function FailureOf(images: Registry, name: ImageName): Option<string>
  {
    match LongestKey(images, name)
    case None => Some(NotFoundMessage(name))
    case Some(k) =>
      match images[name[..k]].parameterize(name[..k], name[k..])
      case Success(_) => None
      case Failure(e) => Some(e)
  }

  /** What resolving a reference does with the debug flag set or not. */
  function Resolve(images: Registry, ref: Reference, debug: bool): Outcome
  {
    match ref
    case Direct(d) => Outcome(Some(d), None)
    case Named(name) =>
      match LongestKey(images, name)
      case None =>
        var msg := NotFoundMessage(name);
        Outcome(Some(ErrorText(msg)), if debug then Some(msg) else None)
      case Some(k) =>
        match images[name[..k]].parameterize(name[..k], name[k..])
        case Success(d) => Outcome(Some(d), None)
        case Failure(e) =>
          if debug then Outcome(None, Some(e)) else Outcome(Some(ErrorText(e)), None)
  }

  /** The keys looked up are the prefixes of the name from the longest down,
      one token shorter each time; the search stops at the first key, or
      after the one-token prefix when there is none. */
  lemma {:induction false} ProbeOrder(images: Registry, name: ImageName)
    ensures |Probes(images, name)| ==
      match LongestKey(images, name)
      case Some(k) => |name| - k + 1
      case None => |name|
    ensures forall i :: 0 <= i < |Probes(images, name)| ==>
      Probes(images, name)[i] == name[..|name| - i]
    decreases |name|
  {
    if |name| > 0 && name !in images {
      var shorter := name[..|name| - 1];
      ProbeOrder(images, shorter);
      assert forall j :: 0 <= j <= |shorter| ==> shorter[..j] == name[..j];
      assert name[..|name|] == name;
    } else if |name| > 0 {
      assert name[..|name|] == name;
    }
  }

  /** The empty name is never looked up, every lookup is shorter than the one
      before it, and no key is looked up after the first one found. */
  lemma ProbesShrinkAndStop(images: Registry, name: ImageName)
    ensures forall p :: p in Probes(images, name) ==> |p| > 0
    ensures forall i, j :: 0 <= i < j < |Probes(images, name)| ==>
      |Probes(images, name)[j]| < |Probes(images, name)[i]|
    ensures forall i :: 0 <= i < |Probes(images, name)| - 1 ==> Probes(images, name)[i] !in images
    ensures LongestKey(images, name).Some? <==>
      |Probes(images, name)| > 0 && Probes(images, name)[|Probes(images, name)| - 1] in images
  {
    ProbeOrder(images, name);
    var r := Probes(images, name);
    forall p | p in r ensures |p| > 0 {
      var i :| 0 <= i < |r| && r[i] == p;
    }
  }

  /** `parameterize` is called exactly when some non-empty prefix of the name
      is a key, and then once, with the longest such prefix and the remaining
      tokens in their original order. */
  lemma CalledOnceAtLongestKey(images: Registry, name: ImageName, c: Call)
    ensures |Calls(images, name)| <= 1
    ensures |Calls(images, name)| == 1 <==> exists j :: 0 < j <= |name| && name[..j] in images
    ensures c in Calls(images, name) <==>
      && c.prefix + c.parameters == name
      && 0 < |c.prefix|
      && c.prefix in images
      && forall j :: |c.prefix| < j <= |name| ==> name[..j] !in images
  {
    if c.prefix + c.parameters == name && 0 < |c.prefix| && c.prefix in images
      && forall j :: |c.prefix| < j <= |name| ==> name[..j] !in images
    {
      var n := |c.prefix|;
      assert name[..n] == c.prefix && name[n..] == c.parameters;
      match LongestKey(images, name)
      case None =>
        assert false;
      case Some(k) =>
        assert k == n;
    }
    if c in Calls(images, name) {
      var k := LongestKey(images, name).value;
      assert name[..k] + name[k..] == name;
    }
  }

  /** A displayable given in place of a name is the target itself; the
      registry is not consulted and nothing can fail. */
  lemma DirectNeedsNoRegistry(images: Registry, d: Displayable, debug: bool)
    ensures Resolve(images, Direct(d), debug) == Outcome(Some(d), None)
    ensures ProbesOf(images, Direct(d)) == [] && CallsOf(images, Direct(d)) == []
  {
  }

  /** How a named resolution ends: with the factory's displayable when
      nothing fails; otherwise, with debug off, with the error text carrying
      the failure message stored and nothing raised, and with debug on, with
      that message raised. */
  lemma ResolveNamed(images: Registry, name: ImageName, debug: bool)
    ensures FailureOf(images, name).None? ==>
      var k := LongestKey(images, name).value;
      images[name[..k]].parameterize(name[..k], name[k..]).Success? &&
      Resolve(images, Named(name), debug) ==
        Outcome(Some(images[name[..k]].parameterize(name[..k], name[k..]).value), None)
    ensures FailureOf(images, name).Some? && !debug ==>
      Resolve(images, Named(name), debug) == Outcome(Some(ErrorText(FailureOf(images, name).value)), None)
    ensures FailureOf(images, name).Some? && debug ==>
      Resolve(images, Named(name), debug).raised == FailureOf(images, name)
  {
  }

  /** Only a failure with debug on raises, and every resolution that does
      not raise stores a target. */
  lemma ResolveStoresUnlessRaised(images: Registry, ref: Reference, debug: bool)
    ensures Resolve(images, ref, debug).raised.Some? ==> debug
    ensures Resolve(images, ref, debug).raised.None? ==> Resolve(images, ref, debug).target.Some?
  {
  }

  /** With debug on, a missing name still leaves the error text as the
      target, while a rejected parameterization leaves no target at all. */
  lemma DebugFailureTargets(images: Registry, name: ImageName)
    ensures LongestKey(images, name).None? ==>
      Resolve(images, Named(name), true) ==
        Outcome(Some(ErrorText(NotFoundMessage(name))), Some(NotFoundMessage(name)))
    ensures LongestKey(images, name).Some? && FailureOf(images, name).Some? ==>
      Resolve(images, Named(name), true) == Outcome(None, FailureOf(images, name))
  {
  }

  /** A registry holding ("eileen", "happy"): the name ("eileen", "happy",
      "hat") is parameterized at ("eileen", "happy") with ("hat"), and
      ("eileen", "sad") is not found. */
  lemma EileenExample(f: Factory)
    ensures var images := map[["eileen", "happy"] := f];
      && Calls(images, ["eileen", "happy", "hat"]) == [Call(["eileen", "happy"], ["hat"])]
      && Probes(images, ["eileen", "happy", "hat"]) ==
           [["eileen", "happy", "hat"], ["eileen", "happy"]]
      && LongestKey(images, ["eileen", "sad"]).None?
      && Probes(images, ["eileen", "sad"]) == [["eileen", "sad"], ["eileen"]]
  {
    var images := map[["eileen", "happy"] := f];
    var hat: ImageName := ["eileen", "happy", "hat"];
    var sad: ImageName := ["eileen", "sad"];
    assert hat !in images;
    assert hat[..2] == ["eileen", "happy"];
    assert sad !in images && sad[..1] == ["eileen"] && sad[..1] !in images;
    assert sad[..1][..0] == [];
  }
}
