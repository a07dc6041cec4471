/** The message composer (web/src/components/ChatInput.tsx): the text box
    and its send guard, the Enter key, the send and microphone buttons, and
    the "+" toolkit pop-up with its mobile subset. `onSend` is modelled by
    returning the text it would receive. */
module ChatInput {
  import opened Seqs
  import opened Text

  /** One entry of the toolkit pop-up; `text` is the source's `label`, a
      reserved word here, and the icon is left out. */
  datatype ToolkitItem = ToolkitItem(text: string, showOnMobile: bool, hasChevron: bool)

  const ToolkitItems: seq<ToolkitItem> := [
    ToolkitItem("Add photos & files", true, false),
    ToolkitItem("Create image", false, false),
    ToolkitItem("Deep research", false, false),
    ToolkitItem("Shopping research", false, false),
    ToolkitItem("Agent mode", false, false),
    ToolkitItem("More", true, true)
  ]

  predicate ShownOnMobile(item: ToolkitItem)
  {
    item.showOnMobile
  }

  /** `displayedItems`: on mobile exactly the items marked `showOnMobile`, in
      their order; otherwise all of them. */
  function DisplayedItems(items: seq<ToolkitItem>, isMobile: bool): (r: seq<ToolkitItem>)
    ensures !isMobile ==> r == items
    ensures isMobile ==> forall x :: x in r <==> x in items && x.showOnMobile
    ensures isMobile ==> forall x :: multiset(r)[x] == if x.showOnMobile then multiset(items)[x] else 0
    ensures IsSubsequence(r, items)
  {
    if isMobile then
      FilterMembers(items, ShownOnMobile);
      FilterMultiset(items, ShownOnMobile);
      FilterIsSubsequence(items, ShownOnMobile);
      Filter(items, ShownOnMobile)
    else
      FilterKeepsAll(items, (x: ToolkitItem) => true);
      FilterIsSubsequence(items, (x: ToolkitItem) => true);
      items
  }

  /** The mobile pop-up offers "Add photos & files" and "More", in that order. */
  lemma MobileToolkit()
    ensures DisplayedItems(ToolkitItems, true) == [ToolkitItems[0], ToolkitItems[5]]
  {
    MobileFilter();
  }

  lemma MobileFilter()
    ensures Filter(ToolkitItems, ShownOnMobile) == [ToolkitItems[0], ToolkitItems[5]]
  {
    var t := ToolkitItems;
    assert t[..6] == t;
    assert t[..5][..4] == t[..4] && t[..4][..3] == t[..3] && t[..3][..2] == t[..2] && t[..2][..1] == t[..1];
    assert Filter(t[..1], ShownOnMobile) == [t[0]] by { assert t[..1][..0] == []; }
    assert Filter(t[..2], ShownOnMobile) == [t[0]];
    assert Filter(t[..3], ShownOnMobile) == [t[0]];
    assert Filter(t[..4], ShownOnMobile) == [t[0]];
    assert Filter(t[..5], ShownOnMobile) == [t[0]];
  }

  /** `hasText`: the box holds something other than white space. */
  function HasText(input: string): (b: bool)
    ensures b <==> !AllSpace(input)
  {
    |Trim(input)| > 0
  }

  /** The send button is disabled without text or while `disabled` is set. */
  function SendDisabled(input: string, disabled: bool): (b: bool)
    ensures b <==> AllSpace(input) || disabled
  {
    !HasText(input) || disabled
  }

  /** The microphone button appears only without text and off mobile. */
  function MicShown(input: string, isMobile: bool): (b: bool)
    ensures b <==> AllSpace(input) && !isMobile
  {
    !HasText(input) && !isMobile
  }

  /** The guard and argument of `handleSubmit`: the trimmed text is sent when
      it is non-empty and the composer is not disabled. */
  function Submission(input: string, disabled: bool): (r: Option<string>)
    ensures r.Some? <==> !AllSpace(input) && !disabled
    ensures r.Some? ==> r.value == Trim(input) && r.value != []
    ensures r.Some? ==> !IsSpace(r.value[0]) && !IsSpace(r.value[|r.value| - 1])
  {
    if Trim(input) != "" && !disabled then Some(Trim(input)) else None
  }

  /** The send button is enabled exactly when submitting would send. */
  lemma SendButtonMatchesSubmit(input: string, disabled: bool)
    ensures !SendDisabled(input, disabled) <==> Submission(input, disabled).Some?
  {
  }

  /** The microphone and an enabled send button are never both offered. */
  lemma MicOrSend(input: string, disabled: bool, isMobile: bool)
    ensures !(MicShown(input, isMobile) && !SendDisabled(input, disabled))
  {
  }

  /** `handleKeyDown`: Enter without Shift submits; nothing else does. */
  predicate SubmitsOnKey(key: string, shiftKey: bool)
  {
    key == "Enter" && !shiftKey
  }

  /** The composer's own state. */
  class Composer {
    var input: string
    var showToolkit: bool

    constructor ()
      ensures input == "" && !showToolkit
    {
      input := "";
      showToolkit := false;
    }

    /** The text box's `onChange`. */
    method SetInput(text: string)
      modifies this
      ensures input == text && showToolkit == old(showToolkit)
    {
      input := text;
    }

    /** `handleSubmit`: returns what `onSend` receives, if anything, and
      clears the box exactly when something was sent. */
    method HandleSubmit(disabled: bool) returns (sent: Option<string>)
      modifies this
      ensures sent == Submission(old(input), disabled)
      ensures input == if sent.Some? then "" else old(input)
      ensures showToolkit == old(showToolkit)
    {
      sent := None;
      if Trim(input) != "" && !disabled {
        sent := Some(Trim(input));
        input := "";
      }
    }

    method HandleKeyDown(key: string, shiftKey: bool, disabled: bool) returns (sent: Option<string>)
      modifies this
      ensures SubmitsOnKey(key, shiftKey) ==> sent == Submission(old(input), disabled)
      ensures !SubmitsOnKey(key, shiftKey) ==> sent == None
      ensures input == if sent.Some? then "" else old(input)
      ensures showToolkit == old(showToolkit)
    {
      sent := None;
      if key == "Enter" && !shiftKey {
        sent := HandleSubmit(disabled);
      }
    }

    /** The "+" button flips the pop-up. */
    method ToggleToolkit()
      modifies this
      ensures showToolkit == !old(showToolkit) && input == old(input)
    {
      showToolkit := !showToolkit;
    }

    /** Clicking a toolkit item closes the pop-up. */
    method PickToolkitItem()
      modifies this
      ensures !showToolkit && input == old(input)
    {
      showToolkit := false;
    }

    /** A mouse-down anywhere: it closes the open pop-up unless it lands on the
      pop-up itself or on the "+" button. */
    method MouseDown(inToolkit: bool, onButton: bool)
      modifies this
      ensures showToolkit == (old(showToolkit) && (inToolkit || onButton))
      ensures input == old(input)
    {
      if showToolkit && !inToolkit && !onButton {
        showToolkit := false;
      }
    }
  }
}
