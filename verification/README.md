# Dynamic tags: a Dafny model of the tag-list editor

This project models the editing logic of the `DynamicTags` component of the
naive-ui component library (`src/dynamic-tags/src/DynamicTags.tsx`). The component shows a list
of string tags. Each tag can be closed, and a trailing control is either a
dashed "add" button or a text input. Typing and pressing Enter (or leaving
the input) appends the typed text as a new tag.

The model is functional. A `Component` pairs the props the logic reads with
the component's own state. The state holds the uncontrolled tag list, the
input buffer, the `showInput` and `inputForceFocused` flags, and a count of
scheduled focus callbacks. Every handler is a pure function returning a
`Step`: the component afterwards plus the ordered log of what it emitted.
A log entry is a callback invocation with its argument, a form "input"
notification or a form "change" notification.

Modules:
- `Wrappers`: `Option`, for props the parent leaves `undefined`.
- `JsArray`: `splice(start, 1)` with ECMAScript start clamping, and `push`, both on a copy.
- `Handlers`: callback props holding one handler or an array of them, and the event log.
- `DynamicTags`: setup, the merged (displayed) value, `doChange` and the handlers.
- `DynamicTagsRender`: the child list of `render`.
- `DynamicTagsSession`: actions, which actions the rendered children offer, runs of actions, and lemmas relating several handler calls.

Two helpers outside this component are modelled as assumptions, not
verified facts:
- The displayed value is the controlled `value` prop when it is defined, else the uncontrolled list.
- Invoking a callback prop calls each of its handlers in array order with the same argument.

The source copies the displayed list (`slice(0)`) before `splice` or `push`.
So the parent's array is never mutated in place. In the model all values are
immutable. `CloseClick` and `Confirm` state that the props, including the
controlled value, are unchanged.

## Model

| member | source | states |
|---|---|---|
| JsArray.SpliceOne | src/dynamic-tags/src/DynamicTags.tsx:110-112 | splicing one element at an in-range index removes exactly that element and keeps the others in order; a negative index counts from the end, clamped at the first element; an index past the end, or any index on an empty list, removes nothing |
| JsArray.RemovedAtMultiset | src/dynamic-tags/src/DynamicTags.tsx:110-112 | removing position k takes away exactly one occurrence of the k-th tag and nothing else |
| JsArray.Push | src/dynamic-tags/src/DynamicTags.tsx:124-125 | the new list is one longer, keeps every earlier tag at its position and ends with the pushed tag |
| Handlers.Call | src/dynamic-tags/src/DynamicTags.tsx:103-105 | invoking a handler array calls each handler once, in array order, with the same value |
| Handlers.CallInvokesInOrder | src/dynamic-tags/src/DynamicTags.tsx:103-105 | the handlers read back from the invocation log are exactly the registered ones, in order |
| DynamicTags.Setup | src/dynamic-tags/src/DynamicTags.tsx:71-83 | the uncontrolled list starts as `defaultValue`, or as the empty list when that prop is absent; the input starts hidden, empty and force-focused |
| DynamicTags.Merged | src/dynamic-tags/src/DynamicTags.tsx:83-88 | the displayed list is the controlled value when present, else the uncontrolled list |
| DynamicTags.DoChange | src/dynamic-tags/src/DynamicTags.tsx:96-109 | every subscriber is called with the committed list; then form input and form change fire last; the committed list replaces the uncontrolled list even under a controlled value; nothing else changes |
| DynamicTags.CloseClick | src/dynamic-tags/src/DynamicTags.tsx:110-114 | closing index i commits the splice of the displayed list at i, which for an in-range i is the list with element i removed and the rest in order; every subscriber gets that list, then form input and form change fire; the props are untouched; only the uncontrolled list changes |
| DynamicTags.Confirm | src/dynamic-tags/src/DynamicTags.tsx:122-131 | a non-empty buffer commits the displayed list with the buffer appended and earlier tags unchanged, to every subscriber and then form input and form change; an empty buffer emits nothing and keeps the uncontrolled list; either way the input ends hidden, empty and force-focused |
| DynamicTags.KeyUp | src/dynamic-tags/src/DynamicTags.tsx:115-121 | Enter and NumpadEnter are exactly a confirm: the displayed list with the non-empty buffer appended is committed to every subscriber, and the input is hidden, cleared and force-focused; every other key code leaves the component unchanged and emits nothing |
| DynamicTags.Blur | src/dynamic-tags/src/DynamicTags.tsx:132-134 | leaving the input is exactly a confirm: the displayed list with the non-empty buffer appended is committed to every subscriber, and the input ends hidden, cleared and force-focused |
| DynamicTags.AddClick | src/dynamic-tags/src/DynamicTags.tsx:135-141 | the add button shows the input and schedules one focus callback; it emits nothing and leaves the list, buffer and force-focus flag alone |
| DynamicTags.FocusTick | src/dynamic-tags/src/DynamicTags.tsx:137-140 | a scheduled focus callback clears the force-focus flag and nothing else |
| DynamicTags.TypeText | src/dynamic-tags/src/DynamicTags.tsx:221-224 | typing replaces the buffer and nothing else |
| DynamicTags.SetValue | src/dynamic-tags/src/DynamicTags.tsx:84-88 | the parent changing `value` changes only the controlled slot; the component's own state is kept |
| DynamicTagsRender.Tags | src/dynamic-tags/src/DynamicTags.tsx:198-215 | one tag per displayed element, keyed by its position and showing that element |
| DynamicTagsRender.Control | src/dynamic-tags/src/DynamicTags.tsx:216-251 | the trailing control is the input, showing the buffer and force-focus flag, exactly when `showInput`, else the add button |
| DynamicTagsRender.Render | src/dynamic-tags/src/DynamicTags.tsx:198-251 | the children are one tag per displayed element followed by exactly one trailing control, the input showing the buffer while it is shown, else the add button |
| DynamicTagsRender.CloseRenderedTag | src/dynamic-tags/src/DynamicTags.tsx:199-211 | the close index a rendered tag reports is always in range, and closing it removes exactly that tag, one occurrence, with the rest in order |
| DynamicTagsRender.SetupRender | src/dynamic-tags/src/DynamicTags.tsx:36-39 | the first render shows the controlled value, or else `defaultValue` (empty when absent), followed by the add button |
| DynamicTagsSession.DoChangeNotifiesInOrder | src/dynamic-tags/src/DynamicTags.tsx:96-109 | the handlers called are exactly those of `onChange`, then `onUpdateValue`, then `'onUpdate:value'`, all with the committed list, followed by form input then form change |
| DynamicTagsSession.ControlledDisplayIsFrozen | src/dynamic-tags/src/DynamicTags.tsx:83-109 | with a controlled value, no user action changes the displayed list until the parent passes a new value |
| DynamicTagsSession.UncontrolledReportsDisplayed | src/dynamic-tags/src/DynamicTags.tsx:96-131 | without a controlled value, every callback receives exactly the list displayed after the action |
| DynamicTagsSession.UncontrolledTagCount | src/dynamic-tags/src/DynamicTags.tsx:110-141 | without a controlled value, an enabled close removes one tag, a confirm adds one exactly when the buffer is non-empty, and add, typing, focus and other keys keep the list |
| DynamicTagsSession.ConfirmIdempotent | src/dynamic-tags/src/DynamicTags.tsx:122-131 | a second confirm right after a first emits nothing and changes nothing |
| DynamicTagsSession.EnterThenBlurCommitsOnce | src/dynamic-tags/src/DynamicTags.tsx:115-134 | Enter followed by blur has exactly the effect and emissions of one confirm, so the typed tag is added once |
| DynamicTagsSession.TypeThenEnterAppends | src/dynamic-tags/src/DynamicTags.tsx:115-131 | without a controlled value, typing t and pressing Enter appends t when it is non-empty and keeps the list otherwise, then hides and clears the input |
| DynamicTagsSession.BufferClearedAlongRuns | src/dynamic-tags/src/DynamicTags.tsx:122-141 | from setup, along any run of actions the rendered children offer, the buffer is empty whenever the input is hidden |
| DynamicTagsSession.FormEventsPaired | src/dynamic-tags/src/DynamicTags.tsx:107-108 | in the log of any run, every form input notification is immediately followed by a form change notification |

## Left out

- The helper that merges controlled and uncontrolled state is not part of this model. It is assumed to return the controlled value when defined, else the uncontrolled one. Any synchronisation it might do between the two slots is not modelled.
- The helper that invokes a callback prop is not part of this model. It is assumed to call each handler in array order. A callback prop holding an empty array calls nothing, which is the same effect as an absent prop.
- The form-item collaborator is not part of this model. Its input and change triggers are recorded as events and fire even when no form encloses the component. Validation is not modelled.
- What a callback does is not modelled. A parent that reacts by passing a new `value` is the separate `Parent` action of the session module.
- DynamicTags.FocusTick: moving the browser focus to the input (`inputInstRef.value?.focus()`) is not modelled. Only the flag change is. The tick is a separate action, because the source runs it asynchronously on the next tick.
- `Dispatch` treats a tick with nothing scheduled as doing nothing. `Enabled` never offers that action.
- DynamicTagsSession.Enabled: the actions the rendered children offer are an assumption about the rendering library. Close is offered on rendered tags. Add is offered only while the button shows. Keys, blur and typing are offered only while the input shows. The `closable` and `disabled` props, which may hide or disable a tag's close button, are not modelled. `Enabled` does not offer a blur once the input is hidden. `EnterThenBlurCommitsOnce` shows that a blur arriving right after Enter hid the input commits nothing more.
- The close index is an `int`. Non-integer numbers, which the rendered tags never pass, are not modelled.
- Theming, CSS variables, the locale text of the add button, the input size (`smallerSize`), styles and the deprecation warning of `onChange` are rendering concerns and are not modelled.
- The tree node content, the tag prop declarations and the checkbox tests of the same repository are outside this component.
