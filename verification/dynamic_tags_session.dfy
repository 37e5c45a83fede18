/** Sequences of user and parent actions on one component instance, and the
    properties that relate several handler calls. */
module DynamicTagsSession {
  import opened Wrappers
  import opened Handlers
  import opened DynamicTags
  import JsArray

  /** Everything that can happen to the component: a user action on a
      rendered child, the scheduled focus callback, or the parent changing
      the controlled `value`. */
  datatype Action =
    | Close(index: int)
    | Add
    | Key(code: string)
    | Leave                           // the input loses focus
    | Type(text: string)
    | Tick                            // one scheduled focus callback runs
    | Parent(value: Option<seq<string>>)

  /** Whether the rendered children offer the action: a close only on a
      rendered tag, the add button only while the input is hidden, key,
      blur and typing only while it is shown, a tick only when one is
      scheduled. The parent may always re-render. */
  predicate Enabled(c: Component, a: Action)
  {
    match a
    case Close(i) => 0 <= i < |Merged(c)|
    case Add => !c.state.showInput
    case Key(_) => c.state.showInput
    case Leave => c.state.showInput
    case Type(_) => c.state.showInput
    case Tick => c.state.pendingFocus > 0
    case Parent(_) => true
  }

  /** Runs the handler for `a`. A tick with nothing scheduled does nothing. */
  function Dispatch(c: Component, a: Action): Step
  {
    match a
    case Close(i) => CloseClick(c, i)
    case Add => AddClick(c)
    case Key(code) => KeyUp(c, code)
    case Leave => Blur(c)
    case Type(t) => TypeText(c, t)
    case Tick => if c.state.pendingFocus > 0 then FocusTick(c) else Step(c, [])
    case Parent(v) => SetValue(c, v)
  }

  /** Runs the actions in order with the handler `step`, concatenating what
      each call emits. */
  function RunWith(step: (Component, Action) -> Step, c: Component, actions: seq<Action>): Step
    decreases |actions|
  {
    if |actions| == 0 then Step(c, [])
    else
      var first := step(c, actions[0]);
      var rest := RunWith(step, first.after, actions[1..]);
      Step(rest.after, first.events + rest.events)
  }

  /** Runs the actions in order through the component's handlers. */
  function Run(c: Component, actions: seq<Action>): Step
  {
    RunWith(Dispatch, c, actions)
  }

  /** The first action of a non-empty run, then the rest. */
  lemma RunCons(c: Component, actions: seq<Action>)
    requires |actions| > 0
    ensures Run(c, actions).after == Run(Dispatch(c, actions[0]).after, actions[1..]).after
    ensures Run(c, actions).events ==
              Dispatch(c, actions[0]).events + Run(Dispatch(c, actions[0]).after, actions[1..]).events
  {
  }

  /** Every action of the run is enabled when it happens. */
  predicate Valid(c: Component, actions: seq<Action>)
    decreases |actions|
  {
    |actions| == 0 ||
    (Enabled(c, actions[0]) && Valid(Dispatch(c, actions[0]).after, actions[1..]))
  }

  /** The input buffer is empty whenever the input is hidden. */
  predicate BufferClearedWhenHidden(c: Component)
  {
    !c.state.showInput ==> c.state.input == ""
  }

  /** `doChange` calls exactly the registered handlers, `onChange` first,
      then `onUpdateValue`, then `'onUpdate:value'`, each in its array order,
      all with the committed list, and then fires form input and form change. */
  lemma DoChangeNotifiesInOrder(c: Component, v: seq<string>)
    ensures InvokedHandlers(DoChange(c, v).events) == Subscribers(c.props)
    ensures forall e :: e in DoChange(c, v).events && e.Invoked? ==> e.value == v
    ensures DoChange(c, v).events[|DoChange(c, v).events| - 2..] == [FormInput, FormChange]
    ensures DoChange(c, v).after.state.uncontrolled == v
  {
    var p := c.props;
    var a := Call(Registered(p.onChange), v);
    var b := Call(Registered(p.onUpdateValue), v);
    var d := Call(Registered(p.onUpdateColonValue), v);
    CallInvokesInOrder(Registered(p.onChange), v);
    CallInvokesInOrder(Registered(p.onUpdateValue), v);
    CallInvokesInOrder(Registered(p.onUpdateColonValue), v);
    InvokedHandlersAppend(a, b);
    InvokedHandlersAppend(a + b, d);
    InvokedHandlersAppend(a + b + d, [FormInput, FormChange]);
    assert InvokedHandlers([FormInput, FormChange]) == [];
  }

  /** With a controlled value, no user action changes what is displayed:
      commits land only in the internal list until the parent passes a new
      value. */
  lemma ControlledDisplayIsFrozen(c: Component, a: Action)
    requires c.props.value.Some? && !a.Parent?
    ensures Merged(Dispatch(c, a).after) == Merged(c)
    ensures Dispatch(c, a).after.props == c.props
  {
  }

  /** Without a controlled value, every handler call reports exactly the list
      that is displayed afterwards. */
  lemma UncontrolledReportsDisplayed(c: Component, a: Action)
    requires c.props.value.None? && !a.Parent?
    ensures forall e :: e in Dispatch(c, a).events && e.Invoked? ==>
              e.value == Merged(Dispatch(c, a).after)
  {
    match a
    case Close(i) =>
      DoChangeNotifiesInOrder(c, JsArray.SpliceOne(Merged(c), i));
    case Key(code) =>
      if (code == EnterCode || code == NumpadEnterCode) && c.state.input != "" {
        DoChangeNotifiesInOrder(c, JsArray.Push(Merged(c), c.state.input));
      }
    case Leave =>
      if c.state.input != "" {
        DoChangeNotifiesInOrder(c, JsArray.Push(Merged(c), c.state.input));
      }
    case _ =>
  }

  /** In uncontrolled mode an enabled action changes the number of tags by
      -1 for a close, +1 for a confirm of a non-empty input, and 0 otherwise. */
  lemma UncontrolledTagCount(c: Component, a: Action)
    requires c.props.value.None? && !a.Parent? && Enabled(c, a)
    ensures a.Close? ==> |Merged(Dispatch(c, a).after)| == |Merged(c)| - 1
    ensures (a.Leave? || (a.Key? && (a.code == EnterCode || a.code == NumpadEnterCode))) ==>
              |Merged(Dispatch(c, a).after)| ==
                |Merged(c)| + (if c.state.input != "" then 1 else 0)
    ensures (a.Add? || a.Type? || a.Tick? || (a.Key? && a.code != EnterCode && a.code != NumpadEnterCode)) ==>
              Merged(Dispatch(c, a).after) == Merged(c)
  {
  }

  /** A second confirm right after a first one finds the buffer empty: it
      emits nothing and leaves the component as it was. */
  lemma ConfirmIdempotent(c: Component)
    ensures Confirm(Confirm(c).after) == Step(Confirm(c).after, [])
  {
  }

  /** Pressing Enter and then losing focus (the input closing takes focus
      away) commits the typed text once, not twice. */
  lemma EnterThenBlurCommitsOnce(c: Component)
    ensures Run(c, [Key(EnterCode), Leave]) == Confirm(c)
  {
    var first := Dispatch(c, Key(EnterCode));
    assert [Key(EnterCode), Leave][1..] == [Leave];
    ConfirmIdempotent(c);
    assert Run(first.after, [Leave]) == Step(first.after, []);
  }

  /** Typing `t` into the shown input and pressing Enter appends `t` to the
      displayed list when it is non-empty; the earlier tags are unchanged. */
  lemma TypeThenEnterAppends(c: Component, t: string)
    requires c.props.value.None?
    ensures var after := Run(c, [Type(t), Key(EnterCode)]).after;
            (t != "" ==> Merged(after) == Merged(c) + [t]) &&
            (t == "" ==> Merged(after) == Merged(c)) &&
            !after.state.showInput && after.state.input == ""
  {
    var typed := TypeText(c, t).after;
    RunCons(c, [Type(t), Key(EnterCode)]);
    assert [Type(t), Key(EnterCode)][1..] == [Key(EnterCode)];
    RunCons(typed, [Key(EnterCode)]);
    assert [Key(EnterCode)][1..] == [];
    if t != "" {
      var m := Merged(c);
      var committed := Confirm(typed).after.state.uncontrolled;
      assert committed == m + [t];
    }
  }

  /** An enabled action keeps the buffer empty while the input is hidden. */
  lemma EnabledPreservesBuffer(c: Component, a: Action)
    requires BufferClearedWhenHidden(c) && Enabled(c, a)
    ensures BufferClearedWhenHidden(Dispatch(c, a).after)
  {
  }

  /** Starting from `setup`, along any run of enabled actions, the buffer is
      empty whenever the input is hidden; in particular the add button never
      reopens an input holding stale text. */
  lemma {:induction false} BufferClearedAlongRuns(p: Props, actions: seq<Action>)
    requires Valid(Setup(p), actions)
    ensures BufferClearedWhenHidden(Run(Setup(p), actions).after)
  {
    BufferClearedFrom(Setup(p), actions);
  }

  lemma {:induction false} BufferClearedFrom(c: Component, actions: seq<Action>)
    requires BufferClearedWhenHidden(c) && Valid(c, actions)
    ensures BufferClearedWhenHidden(Run(c, actions).after)
    decreases |actions|
  {
    if |actions| > 0 {
      EnabledPreservesBuffer(c, actions[0]);
      BufferClearedFrom(Dispatch(c, actions[0]).after, actions[1..]);
    }
  }

  /** Form notifications come in input-then-change pairs: in the events of
      any run, every `FormInput` is directly followed by a `FormChange`. */
  lemma {:induction false} FormEventsPaired(c: Component, actions: seq<Action>)
    ensures forall i :: 0 <= i < |Run(c, actions).events| && Run(c, actions).events[i] == FormInput ==>
              i + 1 < |Run(c, actions).events| && Run(c, actions).events[i + 1] == FormChange
    decreases |actions|
  {
    if |actions| > 0 {
      var first := Dispatch(c, actions[0]);
      var rest := Run(first.after, actions[1..]);
      assert Run(c, actions).events == first.events + rest.events;
      FormEventsPaired(first.after, actions[1..]);
      DispatchFormEventsPaired(c, actions[0]);
      var es := first.events + rest.events;
      forall i | 0 <= i < |es| && es[i] == FormInput
        ensures i + 1 < |es| && es[i + 1] == FormChange
      {
        if i < |first.events| {
          assert first.events[i] == FormInput;
        } else {
          assert rest.events[i - |first.events|] == FormInput;
        }
      }
    }
  }

  /** The pairing within one commit. */
  lemma DoChangeFormEventsPaired(c: Component, v: seq<string>)
    ensures forall i :: 0 <= i < |DoChange(c, v).events| && DoChange(c, v).events[i] == FormInput ==>
              i + 1 < |DoChange(c, v).events| && DoChange(c, v).events[i + 1] == FormChange
  {
    var es := DoChange(c, v).events;
    assert forall i :: 0 <= i < |Subscribers(c.props)| ==> es[i].Invoked?;
  }

  /** The pairing within one action. */
  lemma DispatchFormEventsPaired(c: Component, a: Action)
    ensures forall i :: 0 <= i < |Dispatch(c, a).events| && Dispatch(c, a).events[i] == FormInput ==>
              i + 1 < |Dispatch(c, a).events| && Dispatch(c, a).events[i + 1] == FormChange
  {
    match a
    case Close(i) =>
      DoChangeFormEventsPaired(c, JsArray.SpliceOne(Merged(c), i));
    case Key(code) =>
      if (code == EnterCode || code == NumpadEnterCode) && c.state.input != "" {
        DoChangeFormEventsPaired(c, JsArray.Push(Merged(c), c.state.input));
      }
    case Leave =>
      if c.state.input != "" {
        DoChangeFormEventsPaired(c, JsArray.Push(Merged(c), c.state.input));
      }
    case _ =>
  }
}
