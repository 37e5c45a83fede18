/** The tag-list editing state machine of the dynamic-tags component.

    The component shows a list of string tags. Each tag can be closed, and
    a trailing control is either an "add" button or a text input. The
    displayed list is the controlled `value` prop when the parent supplies
    one, else an internal (uncontrolled) list seeded from `defaultValue`.
    Every edit is committed through one step that notifies the callback
    props, overwrites the internal list and tells the enclosing form. */
module DynamicTags {
  import opened Wrappers
  import opened Handlers
  import JsArray

  /** The props this model reads. A callback prop left out is `None`. */
  datatype Props = Props(
    defaultValue: Option<seq<string>>,
    value: Option<seq<string>>,
    onChange: Option<MaybeArray<Handler>>,          // deprecated name
    onUpdateValue: Option<MaybeArray<Handler>>,
    onUpdateColonValue: Option<MaybeArray<Handler>> // the `'onUpdate:value'` prop
  )

  /** The component's own reactive state. `pendingFocus` counts focus
      callbacks scheduled for the next tick and not yet run. */
  datatype State = State(
    uncontrolled: seq<string>,
    input: string,
    showInput: bool,
    inputForceFocused: bool,
    pendingFocus: nat
  )

  datatype Component = Component(props: Props, state: State)

  /** The result of one handler: the component afterwards and what it
      emitted, in order. */
  datatype Step = Step(after: Component, events: seq<Event>)

  /** Key codes that confirm the input. */
  const EnterCode: string := "Enter"
  const NumpadEnterCode: string := "NumpadEnter"

  /** The component right after `setup`: the internal list is
      `defaultValue` (an empty list when that prop is absent), the input is
      hidden, empty, and force-focused. */
  function Setup(p: Props): (c: Component)
    ensures c.props == p
    ensures p.defaultValue.Some? ==> c.state.uncontrolled == p.defaultValue.value
    ensures p.defaultValue.None? ==> c.state.uncontrolled == []
    ensures !c.state.showInput && c.state.input == ""
    ensures c.state.inputForceFocused && c.state.pendingFocus == 0
  {
    Component(p, State(p.defaultValue.GetOr([]), "", false, true, 0))
  }

  /** The list on display: the controlled value when present, else the
      internal one. */
  function Merged(c: Component): (r: seq<string>)
    ensures c.props.value.Some? ==> r == c.props.value.value
    ensures c.props.value.None? ==> r == c.state.uncontrolled
  {
    c.props.value.GetOr(c.state.uncontrolled)
  }

  /** Every handler `doChange` calls, in calling order: the deprecated
      `onChange`, then `onUpdateValue`, then `'onUpdate:value'`. */
  function Subscribers(p: Props): seq<Handler>
  {
    Registered(p.onChange) + Registered(p.onUpdateValue) + Registered(p.onUpdateColonValue)
  }

  /** `doChange(v)`: notify every subscriber with `v`, store `v` in the
      internal list (even under a controlled value), then trigger the form's
      input and change notifications. */
  function DoChange(c: Component, v: seq<string>): (r: Step)
    ensures r.after == Component(c.props, c.state.(uncontrolled := v))
    ensures |r.events| == |Subscribers(c.props)| + 2
    ensures forall i :: 0 <= i < |Subscribers(c.props)| ==>
              r.events[i] == Invoked(Subscribers(c.props)[i], v)
    ensures r.events[|r.events| - 2] == FormInput
    ensures r.events[|r.events| - 1] == FormChange
  {
    var p := c.props;
    var notified := Call(Registered(p.onChange), v)
                    + Call(Registered(p.onUpdateValue), v)
                    + Call(Registered(p.onUpdateColonValue), v);
    Step(Component(p, c.state.(uncontrolled := v)), notified + [FormInput, FormChange])
  }

  /** `handleCloseClick(index)`: commit a copy of the displayed list with
      the element at `index` spliced out. A rendered tag passes its own
      position, so the in-range case is the one users reach; the rest follow
      `splice`'s clamping. */
  function CloseClick(c: Component, index: int): (r: Step)
    ensures r.after.props == c.props
    ensures r.after.state == c.state.(uncontrolled := r.after.state.uncontrolled)
    ensures 0 <= index < |Merged(c)| ==>
              JsArray.RemovedAt(Merged(c), r.after.state.uncontrolled, index)
    ensures index >= |Merged(c)| ==> r.after.state.uncontrolled == Merged(c)
    ensures r.after.state.uncontrolled == JsArray.SpliceOne(Merged(c), index)
    ensures |r.events| == |Subscribers(c.props)| + 2
    ensures forall i :: 0 <= i < |Subscribers(c.props)| ==>
              r.events[i] == Invoked(Subscribers(c.props)[i], r.after.state.uncontrolled)
    ensures r.events[|r.events| - 2..] == [FormInput, FormChange]
  {
    DoChange(c, JsArray.SpliceOne(Merged(c), index))
  }

  /** `handleInputConfirm()`: a non-empty input is appended to a copy of
      the displayed list and committed; an empty one commits nothing. Either
      way the input is then hidden, cleared and force-focused. */
  function Confirm(c: Component): (r: Step)
    ensures r.after.props == c.props
    ensures !r.after.state.showInput && r.after.state.input == ""
    ensures r.after.state.inputForceFocused
    ensures r.after.state.pendingFocus == c.state.pendingFocus
    ensures c.state.input == "" ==>
              r.events == [] && r.after.state.uncontrolled == c.state.uncontrolled
    ensures c.state.input != "" ==>
              var committed := r.after.state.uncontrolled;
              |committed| == |Merged(c)| + 1 &&
              committed[..|Merged(c)|] == Merged(c) &&
              committed[|Merged(c)|] == c.state.input &&
              |r.events| == |Subscribers(c.props)| + 2 &&
              (forall i :: 0 <= i < |Subscribers(c.props)| ==>
                 r.events[i] == Invoked(Subscribers(c.props)[i], committed)) &&
              r.events[|r.events| - 2..] == [FormInput, FormChange]
  {
    var changed :=
      if c.state.input != "" then DoChange(c, JsArray.Push(Merged(c), c.state.input))
      else Step(c, []);
    var s := changed.after.state;
    Step(Component(c.props, s.(showInput := false, inputForceFocused := true, input := "")),
         changed.events)
  }

  /** `handleInputKeyUp(e)`: only `Enter` and `NumpadEnter` confirm. */
  function KeyUp(c: Component, code: string): (r: Step)
    ensures code == EnterCode || code == NumpadEnterCode ==>
              !r.after.state.showInput && r.after.state.input == "" &&
              r.after.state.inputForceFocused &&
              (r.events == [] <==> c.state.input == "")
    ensures code == EnterCode || code == NumpadEnterCode ==> r == Confirm(c)
    ensures code != EnterCode && code != NumpadEnterCode ==> r == Step(c, [])
  {
    if code == EnterCode || code == NumpadEnterCode then Confirm(c) else Step(c, [])
  }

  /** `handleInputBlur()`: leaving the input confirms it. */
  function Blur(c: Component): (r: Step)
    ensures r.after.props == c.props
    ensures !r.after.state.showInput && r.after.state.input == ""
    ensures r.after.state.inputForceFocused
    ensures r.events == [] <==> c.state.input == ""
    ensures r == Confirm(c)
  {
    Confirm(c)
  }

  /** `handleAddClick()`: show the input and schedule a focus callback for
      the next tick. Nothing is emitted and the list is untouched. */
  function AddClick(c: Component): (r: Step)
    ensures r.events == []
    ensures r.after.props == c.props
    ensures r.after.state.showInput
    ensures r.after.state.pendingFocus == c.state.pendingFocus + 1
    ensures r.after.state.uncontrolled == c.state.uncontrolled
    ensures r.after.state.input == c.state.input
    ensures r.after.state.inputForceFocused == c.state.inputForceFocused
  {
    Step(Component(c.props, c.state.(showInput := true, pendingFocus := c.state.pendingFocus + 1)), [])
  }

  /** One scheduled focus callback runs: the input stops being force-focused.
      (Moving the browser focus itself is not modelled.) */
  function FocusTick(c: Component): (r: Step)
    requires c.state.pendingFocus > 0
    ensures r.events == []
    ensures r.after.props == c.props
    ensures !r.after.state.inputForceFocused
    ensures r.after.state.pendingFocus + 1 == c.state.pendingFocus
    ensures r.after.state.(inputForceFocused := c.state.inputForceFocused,
                           pendingFocus := c.state.pendingFocus) == c.state
  {
    Step(Component(c.props, c.state.(inputForceFocused := false, pendingFocus := c.state.pendingFocus - 1)), [])
  }

  /** The input's `onUpdateValue`: the typed text replaces the buffer. */
  function TypeText(c: Component, text: string): (r: Step)
    ensures r.events == []
    ensures r.after == Component(c.props, c.state.(input := text))
  {
    Step(Component(c.props, c.state.(input := text)), [])
  }

  /** The parent re-renders with a new (or no) controlled `value`. */
  function SetValue(c: Component, value: Option<seq<string>>): (r: Step)
    ensures r.events == []
    ensures r.after.state == c.state
    ensures r.after.props == c.props.(value := value)
  {
    Step(Component(c.props.(value := value), c.state), [])
  }
}
