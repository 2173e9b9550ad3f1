# Image references and image buttons of Ren'Py, in Dafny

This project models two displayables from `renpy/display/image.py`:

- **`ImageReference`** names an image by a tuple of tokens, such as `("eileen", "happy", "hat")`, or wraps a displayable directly. The first time it is sent an event, rendered, placed or visited, it looks for its target in the image registry. The search starts with the whole name and drops the last token each time. It stops at the first name that is a registry key and hands that factory the matched prefix plus the dropped tokens in their original order. If no prefix matches, or the factory fails, the target becomes a red text at the origin that carries the failure message. With the debug flag on, the failure is also raised. A rejected parameterization is re-raised before any target is stored. The target is memoised. `get_placement` fills each missing placement component from the reference's own style.
- **`ImageButton`** holds an idle image and a hover image. Its child starts as the idle image. Focusing shows the hover image and unfocusing shows the idle image again. Visiting returns both images.

Layout:

- `wrappers.dfy`: `Option` and `Result`.
- `image_names.dfy`: image names, the space-joined name in the not-found message, and its round trip.
- `displayables.dfy`: displayables, placements and the style fallback of `get_placement`.
- `resolution.dfy`: the specification of the search. It gives the longest registered prefix, the keys looked up, the factory calls made and the final outcome, with the lemmas about them.
- `image_reference.dfy`: the `ImageReference` class. Its `FindTarget` loop is proved against that specification. It also holds the four entry points.
- `image_button.dfy`: the `ImageButton` class.

Modelling choices:

- The image registry (`renpy.exports.images`) and `renpy.config.debug` are method parameters.
- A factory is a datatype holding its `parameterize` function. That function returns a displayable or a failure message.
- An exception is a `Failure(message)` result, or a `raised` message for the internal methods.
- The target's own event handler, the renderer and the target's `get_placement` are function parameters of the entry points.
- Ghost fields on the class record every registry lookup, every `parameterize` call and every search. This lets the contracts say that the search happens at most once and that nothing is looked up again once a target is stored.
- `if not self.target` is modelled as "no target stored". Displayables are plain objects, so any stored target is truthy.
- `parameterize` receives the matched prefix, not the full name (`image.py:87`); the model follows this.
- With debug on, a rejected parameterization is re-raised before anything is stored (`image.py:88-90`). The next entry point therefore searches again. A missing name stores the error text before raising (`image.py:73-77`), so that target is kept. The model keeps both behaviours. "At most one search" holds from the moment a target is stored.

## Model

| member | source | states |
|---|---|---|
| `Resolution.LongestKey` | renpy/display/image.py:82-98 | the result is the length of a non-empty prefix of the name that is a registry key, and no longer prefix is a key; when there is none, no non-empty prefix is a key |
| `Resolution.ProbeOrder` | renpy/display/image.py:82-98 | contract of `Probes`, the keys the loop looks up: the keys looked up are the name and then its prefixes, each one token shorter; there are \|name\| - k + 1 lookups when the longest key has length k, and \|name\| when there is none |
| `Resolution.ProbesShrinkAndStop` | renpy/display/image.py:82-98 | the empty name is never looked up; each lookup is strictly shorter than the one before; only the last lookup can be a key; it is one exactly when some prefix is registered |
| `Resolution.CalledOnceAtLongestKey` | renpy/display/image.py:83-94 | contract of `Calls`, the `parameterize` calls the loop makes: `parameterize` is called at most once, and exactly when some non-empty prefix is registered; a call is made iff its prefix is the longest registered prefix and its parameters are the remaining tokens in order (prefix + parameters == name) |
| `Resolution.DirectNeedsNoRegistry` | renpy/display/image.py:64-68 | contract of `Resolve`, `ProbesOf` and `CallsOf` for a displayable: a displayable given instead of a name becomes the target itself, with no lookup, no call and nothing raised |
| `Resolution.ResolveNamed` | renpy/display/image.py:73-100 | contract of `Resolve` (the outcome of `find_target`), `FailureOf` (the not-found or `parameterize` failure message, lines 87-92) and `ErrorText` (the red text at the origin, line 74) for a name: without a failure, the target is the factory's displayable for the longest prefix; on a failure (not found or rejected) with debug off, the target is the red text carrying the failure message and nothing is raised; with debug on, that message is raised |
| `Resolution.ResolveStoresUnlessRaised` | renpy/display/image.py:73-100 | only debug mode raises, and a resolution that raises nothing always stores a target |
| `Resolution.DebugFailureTargets` | renpy/display/image.py:73-100 | with debug on, a missing name stores the red "not found" text and raises its message; a rejected parameterization stores nothing and raises the factory's message |
| `Resolution.EileenExample` | renpy/display/image.py:82-100 | with ("eileen", "happy") registered, ("eileen", "happy", "hat") looks up two keys and calls the factory with ("eileen", "happy") and ("hat"); ("eileen", "sad") looks up two keys and is not found |
| `ImageNames.SplitJoinRoundTrip` | renpy/display/image.py:100 | contract of `JoinSpaces`, the `' '.join` of the name: splitting the space-joined tokens of a non-empty, space-free name on spaces gives the name back |
| `ImageNames.NotFoundMessageInjective` | renpy/display/image.py:100 | contract of `NotFoundMessage`, the message of a missing image: two space-free, non-empty names with the same not-found message are the same name |
| `Displayables.FillFromStyle` | renpy/display/image.py:119-133 | built from one `OrStyle` per component, each an `if … is None` of lines 121-131: each of xpos, ypos, xanchor, yanchor keeps the target's value when the target gives one and takes the style's value exactly when it does not; a complete style gives a complete placement |
| `Displayables.FillFromStyleIdempotent` | renpy/display/image.py:119-133 | filling a filled placement from the same style changes nothing |
| `Displayables.FillFromStyleKeepsComplete` | renpy/display/image.py:119-133 | a target that gives all four components is returned unchanged |
| `Displayables.FillFromStyleComponentwise` | renpy/display/image.py:119-133 | two styles that agree on any one of the four components give results that agree on that component |
| `ImageReferences.ImageReference.constructor` | renpy/display/image.py:51-59 | a new reference keeps its name and style and has no target yet |
| `ImageReferences.ImageReference.Error` | renpy/display/image.py:73-77 | stores the red error text carrying the message, then raises that message exactly when debug is on |
| `ImageReferences.ImageReference.FindTarget` | renpy/display/image.py:61-100 | the loop keeps current name + parameters == full name and shrinks the name by one token per pass; the stored target and raised message are those of `Resolve`; the lookups and calls appended to the logs are `Probes` and `Calls`; target is left unchanged only when a rejected parameterization is re-raised |
| `ImageReferences.ImageReference.EnsureTarget` | renpy/display/image.py:104-105 | searches only when no target is stored; a stored target is kept and no lookup, call or search happens; when nothing is raised a target is stored |
| `ImageReferences.ImageReference.Event` | renpy/display/image.py:103-107 | resolves on demand as `EnsureTarget` does, then returns the stored target's handling of the event at x, y and st, or the raised message |
| `ImageReferences.ImageReference.Render` | renpy/display/image.py:109-113 | resolves on demand, then returns the rendering of the stored target at the requested size and times, or the raised message |
| `ImageReferences.ImageReference.GetPlacement` | renpy/display/image.py:115-133 | resolves on demand, then returns the target's placement with each missing component taken from this reference's style |
| `ImageReferences.ImageReference.Visit` | renpy/display/image.py:135-139 | resolves on demand, then returns exactly [target] |
| `ImageReferences.VisitTwice` | renpy/display/image.py:103-139 | on a fresh reference, a second visit returns what a successful first visit returned; with debug off the first visit succeeds; a direct displayable is visited as itself |
| `ImageButtons.ImageButton.constructor` | renpy/display/image.py:223-237 | the child starts as the idle image |
| `ImageButtons.ImageButton.Visit` | renpy/display/image.py:239-240 | returns the idle image then the hover image, and the shown child is among them in either state |
| `ImageButtons.ImageButton.Focus` | renpy/display/image.py:242-244 | the child becomes the hover image |
| `ImageButtons.ImageButton.Unfocus` | renpy/display/image.py:246-248 | the child becomes the idle image |
| `ImageButtons.FocusCycle` | renpy/display/image.py:223-248 | a new button shows idle, then hover after focus, then idle after unfocus, and visits [idle, hover] in all three states |

## Left out

- `UncachedImage` (`image.py:13-38`): it loads, converts and scales a file through pygame, which is I/O and a foreign library.
- `Solid` (`image.py:142-164`) and `Frame` (`image.py:166-216`): they only forward their arguments to `SolidImage` and `FrameImage`. `renpy/display/im.py` is not part of this model, so nine-patch compositing is not modelled.
- What the target does with a render or an event. This is the renderer and the target's own handler, which the model takes as function parameters.
- The `Text` displayable beyond its message, colour and placement arguments.
- The style object beyond the four placement values. Any other `**properties` of the reference are left out.
- `ImageButtons.ImageButton.constructor`: does not model `renpy.easy.displayable` (turning names into displayables) or the `idle_`/`hover_` style prefixes set on the two images. Both belong to the style and conversion code, which is not part of this model.
- `ImageButtons.ImageButton.Focus` and `ImageButtons.ImageButton.Unfocus`: do not model the `Button` base class's focus side effects, the `default` argument, or the `clicked`/`hovered` callbacks. The `Button` class is not part of this model.
- The text of an exception raised by `parameterize`. It is carried as an opaque string.
- `nosave = ['target']`: the target is not saved with the game, so a reloaded reference searches again. Save and load are not modelled.
