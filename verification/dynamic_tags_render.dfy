/** The child list the component renders inside its space container: one
    tag per displayed element, keyed and closed by its position, followed by
    exactly one trailing control. */
module DynamicTagsRender {
  import opened DynamicTags
  import opened Wrappers
  import JsArray

  datatype Child =
    | TagItem(key: nat, name: string)          // a tag whose close button reports `key`
    | InputBox(text: string, forceFocus: bool)  // the text input
    | AddButton                                 // the dashed "add" button

  /** Tags for `labels`, the first one at position `first`. */
  function Tags(labels: seq<string>, first: nat): (r: seq<Child>)
    ensures |r| == |labels|
    ensures forall i :: 0 <= i < |labels| ==> r[i] == TagItem(first + i, labels[i])
  {
    if |labels| == 0 then []
    else [TagItem(first, labels[0])] + Tags(labels[1..], first + 1)
  }

  /** The trailing control: the input while it is shown, else the button. */
  function Control(s: State): (r: Child)
    ensures !r.TagItem?
    ensures r.InputBox? <==> s.showInput
    ensures r.InputBox? ==> r.text == s.input && r.forceFocus == s.inputForceFocused
  {
    if s.showInput then InputBox(s.input, s.inputForceFocused) else AddButton
  }

  /** The rendered children. */
  function Render(c: Component): (r: seq<Child>)
    ensures |r| == |Merged(c)| + 1
    ensures forall i :: 0 <= i < |Merged(c)| ==> r[i] == TagItem(i, Merged(c)[i])
    ensures !r[|Merged(c)|].TagItem?
    ensures r[|Merged(c)|].InputBox? <==> c.state.showInput
    ensures r[|Merged(c)|] == Control(c.state)
  {
    Tags(Merged(c), 0) + [Control(c.state)]
  }

  /** Closing any rendered tag removes exactly that tag from the displayed
      list: the key it reports is its own position, which is in range, its
      name is the element removed, and the other tags keep their order. */
  lemma CloseRenderedTag(c: Component, i: nat)
    requires i < |Render(c)| && Render(c)[i].TagItem?
    ensures i < |Merged(c)| && Render(c)[i] == TagItem(i, Merged(c)[i])
    ensures JsArray.RemovedAt(Merged(c), CloseClick(c, i).after.state.uncontrolled, i)
    ensures multiset(CloseClick(c, i).after.state.uncontrolled) + multiset{Merged(c)[i]}
              == multiset(Merged(c))
  {
    JsArray.RemovedAtMultiset(Merged(c), CloseClick(c, i).after.state.uncontrolled, i);
  }

  /** The first render shows one tag per element of `defaultValue` (none
      when it is absent) unless a controlled value is supplied, followed by
      the add button. */
  lemma SetupRender(p: Props)
    ensures var r := Render(Setup(p));
            var shown := if p.value.Some? then p.value.value else p.defaultValue.GetOr([]);
            |r| == |shown| + 1 &&
            (forall i :: 0 <= i < |shown| ==> r[i] == TagItem(i, shown[i])) &&
            r[|shown|] == AddButton
  {
  }
}
