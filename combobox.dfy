/** The combobox component's own state and event handlers. The component keeps
    the search text, the focus and clicking flags, the multi-select selection
    and (through downshift) the menu state; its handlers change these step by
    step. */
module ComboboxComponent {
  import opened JsValues
  import opened LabelFilter
  import opened Selection
  import opened Downshift
  import opened FocusGuard

  /** The `filter` prop: when given, it replaces the default filter. */
  type FilterFunction = (seq<Item>, string) -> seq<Item>

  /** The change types on which a picked option is added to or removed from
      the multi-select selection: blur, Enter, and a click on an option. Typing
      never commits a pick, and neither does the `selectItem(null)` the
      component itself issues after committing one. */
  predicate CommitsPick(changeType: ChangeType)
    ensures CommitsPick(changeType) ==> changeType != InputChange && changeType != FunctionSelectItem
  {
    changeType == InputBlur || changeType == InputKeyDownEnter || changeType == ChangeType.ItemClick
  }

  class Combobox {
    const multiselect: bool
    /** `value !== undefined`: the host supplies the selection. */
    const valueGiven: bool
    const options: seq<Item>
    const optionLabelField: string
    const userLandFilter: Option<FilterFunction>

    var search: string
    var hasFocus: bool
    var isClicking: bool
    var selectedItems: seq<Item>
    /** The state of downshift's combobox hook. */
    var downshift: ComboboxState
    /** The host's `onFocus`/`onBlur` callbacks, in the order they were fired. */
    var hostCalls: seq<HostCall>

    /** Between events, the single-select slot is empty in multi-select mode
        (every pick is moved into the selection at once), and the search text
        is the text in the input. */
    ghost predicate Valid()
      reads this
    {
      && (multiselect ==> downshift.selectedItem.None?)
      && search == downshift.inputValue
    }

    /** The component on mount. `value` is the multi-select `value` prop
        (`None` for `undefined`, an empty list for `null`). */
    constructor (multiselect: bool, options: seq<Item>, optionLabelField: string,
                 userLandFilter: Option<FilterFunction>, defaultValue: seq<Item>, value: Option<seq<Item>>)
      ensures Valid()
      ensures this.multiselect == multiselect && this.options == options
      ensures this.optionLabelField == optionLabelField && this.userLandFilter == userLandFilter
      ensures valueGiven == value.Some?
      ensures selectedItems == if multiselect && value.Some? then value.value else defaultValue
      ensures search == "" && !hasFocus && !isClicking && hostCalls == []
      ensures downshift == ComboboxState(false, -1, None, "")
    {
      this.multiselect := multiselect;
      this.valueGiven := value.Some?;
      this.options := options;
      this.optionLabelField := optionLabelField;
      this.userLandFilter := userLandFilter;
      search := "";
      hasFocus := false;
      isClicking := false;
      selectedItems := if multiselect && value.Some? then value.value else defaultValue;
      downshift := ComboboxState(false, -1, None, "");
      hostCalls := [];
    }

    /** The options the menu offers: the `filter` prop's result when there is
        one, the default filter's otherwise. */
    function FilteredItems(): (items: seq<Item>)
      reads this
      ensures userLandFilter.None? ==> items == DefaultFilter(options, search, optionLabelField)
      ensures userLandFilter.Some? ==> items == userLandFilter.value(options, search)
    {
      match userLandFilter
      case Some(f) => f(options, search)
      case None => DefaultFilter(options, search, optionLabelField)
    }

    /** `showPlaceholder`: nothing is selected. */
    function ShowPlaceholder(): (show: bool)
      reads this
      ensures multiselect ==> (show <==> selectedItems == [])
      ensures !multiselect ==> (show <==> downshift.selectedItem.None?)
    {
      (multiselect && |selectedItems| == 0) || (!multiselect && downshift.selectedItem.None?)
    }

    /** `isInputVisible`: the input is hidden exactly in a closed multi-select
        with something selected, and then the placeholder is not shown either. */
    function IsInputVisible(): (visible: bool)
      reads this
      ensures !multiselect || downshift.isOpen ==> visible
      ensures !visible ==> multiselect && !downshift.isOpen && selectedItems != [] && !ShowPlaceholder()
      ensures multiselect && !downshift.isOpen && selectedItems != [] ==> !visible
    {
      !multiselect || downshift.isOpen || (!downshift.isOpen && |selectedItems| == 0)
    }

    /** The two flags agree: whenever the placeholder styling is on, the input
        is not hidden. */
    lemma PlaceholderOnlyInVisibleInput()
      ensures ShowPlaceholder() ==> IsInputVisible()
    {
    }

    /** `setSelectedItems(item)`: toggle `item` in the selection. */
    method SetSelectedItems(item: Item)
      modifies this`selectedItems
      ensures old(Valid()) ==> Valid()
      ensures selectedItems == Toggle(old(selectedItems), item)
      ensures NoDuplicates(old(selectedItems)) ==> NoDuplicates(selectedItems)
    {
      if NoDuplicates(selectedItems) {
        ToggleKeepsNoDuplicates(selectedItems, item);
      }
      if IsSelected(selectedItems, item) {
        selectedItems := RemoveAll(selectedItems, item);
      } else {
        selectedItems := selectedItems + [item];
      }
    }

    /** downshift's `onStateChange` callback. `changedItem` is the
        `selectedItem` entry of the changes downshift reports; it is `None`
        when the selected item did not change or became `null`. In
        multi-select mode a pick on blur, Enter or click toggles the picked
        option and empties the single-select slot (`selectItem(null)`). */
    method OnStateChange(changeType: ChangeType, changedItem: Option<Item>)
      modifies this`selectedItems, this`downshift
      ensures old(Valid()) ==> Valid()
      ensures CommitsPick(changeType) && multiselect && changedItem.Some? ==>
        selectedItems == Toggle(old(selectedItems), changedItem.value)
        && downshift == old(downshift).(selectedItem := None)
      ensures !(CommitsPick(changeType) && multiselect && changedItem.Some?) ==>
        selectedItems == old(selectedItems) && downshift == old(downshift)
      ensures NoDuplicates(old(selectedItems)) ==> NoDuplicates(selectedItems)
    {
      if CommitsPick(changeType) && multiselect && changedItem.Some? {
        SetSelectedItems(changedItem.value);
        downshift := downshift.(selectedItem := None);
      }
    }

    /** One state change inside downshift: the change goes through the
        component's state reducer and becomes downshift's state; a new input
        value reaches `onInputValueChange` (which sets the search text); then
        `onStateChange` sees the selected item if it changed. The precondition
        is what downshift guarantees: in multi-select mode it fills its
        selected slot only on a pick. */
    method Dispatch(changeType: ChangeType, changes: ComboboxState)
      requires Valid()
      requires multiselect && changes.selectedItem.Some? ==> CommitsPick(changeType)
      modifies this`downshift, this`search, this`selectedItems
      ensures Valid()
      ensures var reduced := StateReducer(multiselect, old(downshift), changeType, changes);
        && search == reduced.inputValue
        && downshift == (if multiselect then reduced.(selectedItem := None) else reduced)
        && selectedItems == (if multiselect && reduced.selectedItem.Some?
                             then Toggle(old(selectedItems), reduced.selectedItem.value)
                             else old(selectedItems))
      ensures NoDuplicates(old(selectedItems)) ==> NoDuplicates(selectedItems)
    {
      var previous := downshift;
      downshift := StateReducer(multiselect, downshift, changeType, changes);
      if downshift.inputValue != previous.inputValue {
        search := downshift.inputValue;
      }
      var changedItem := if downshift.selectedItem != previous.selectedItem then downshift.selectedItem else None;
      OnStateChange(changeType, changedItem);
    }

    /** `handleMultiSelectInputKeyDown`: downshift's handlers never see Space,
        which toggles the highlighted option if there is one; Backspace and
        ArrowLeft are kept from downshift while the menu is open. The result
        is the `preventDownshiftDefault` flag left on the event. */
    method HandleMultiSelectInputKeyDown(key: string) returns (preventDownshiftDefault: bool)
      requires Valid()
      requires multiselect
      requires downshift.highlightedIndex < |FilteredItems()|
      modifies this`selectedItems
      ensures Valid()
      ensures preventDownshiftDefault
          <==> key == " " || (downshift.isOpen && (key == "Backspace" || key == "ArrowLeft"))
      ensures key == " " && downshift.highlightedIndex > -1 ==>
        selectedItems == Toggle(old(selectedItems), FilteredItems()[downshift.highlightedIndex])
      ensures !(key == " " && downshift.highlightedIndex > -1) ==> selectedItems == old(selectedItems)
      ensures search == old(search)
      ensures NoDuplicates(old(selectedItems)) ==> NoDuplicates(selectedItems)
    {
      preventDownshiftDefault := false;
      if key == " " {
        preventDownshiftDefault := true;
        if downshift.highlightedIndex > -1 {
          var highlightedItem := FilteredItems()[downshift.highlightedIndex];
          SetSelectedItems(highlightedItem);
        }
      }
      if downshift.isOpen && (key == "Backspace" || key == "ArrowLeft") {
        preventDownshiftDefault := true;
      }
    }

    /** The two flags the focus guard works on. */
    function Focus(): FocusState
      reads this
    {
      FocusState(hasFocus, isClicking)
    }

    /** An option's `onMouseDown`: a click on an option has begun. */
    method ItemMouseDown()
      requires Valid()
      modifies this`isClicking
      ensures Valid()
      ensures Focus() == FocusStep(old(Focus()), FocusEvent.ItemMouseDown).state
    {
      isClicking := true;
    }

    /** An option's `onClick`: the click is over. */
    method ItemClick()
      requires Valid()
      modifies this`isClicking
      ensures Valid()
      ensures Focus() == FocusStep(old(Focus()), FocusEvent.ItemClick).state
    {
      isClicking := false;
    }

    /** The wrapper's `onFocus`, guarded against clicks on options. `entering`
        is what `getIsElementFocused` reports for the event. */
    method WrapperFocus(entering: bool)
      requires Valid()
      modifies this`hasFocus, this`hostCalls
      ensures Valid()
      ensures Focus() == FocusStep(old(Focus()), FocusEvent.WrapperFocus(entering)).state
      ensures hostCalls == old(hostCalls) + FocusStep(old(Focus()), FocusEvent.WrapperFocus(entering)).calls
    {
      if !isClicking {
        if entering {
          hasFocus := true;
          hostCalls := hostCalls + [OnFocus];
        }
      }
    }

    /** The wrapper's `onBlur`, guarded against clicks on options. `leaving`
        is what `getIsElementBlurred` reports for the event. */
    method WrapperBlur(leaving: bool)
      requires Valid()
      modifies this`hasFocus, this`hostCalls
      ensures Valid()
      ensures Focus() == FocusStep(old(Focus()), FocusEvent.WrapperBlur(leaving)).state
      ensures hostCalls == old(hostCalls) + FocusStep(old(Focus()), FocusEvent.WrapperBlur(leaving)).calls
    {
      if !isClicking {
        if leaving {
          hasFocus := false;
          hostCalls := hostCalls + [OnBlur];
        }
      }
    }
  }

  /** A multi-select combobox with nothing selected: clicking "Apple" selects
      it, clicking it again deselects it. */
  method ClickTwiceScenario() returns (afterFirst: seq<Item>, afterSecond: seq<Item>)
    ensures afterFirst == [Item(map["label" := Str("Apple")])]
    ensures afterSecond == []
  {
    var apple := Item(map["label" := Str("Apple")]);
    var c := new Combobox(true, [apple], "label", None, [], None);
    c.Dispatch(InputChange, ComboboxState(true, -1, None, ""));
    c.Dispatch(ChangeType.ItemClick, ComboboxState(false, 0, Some(apple), "Apple"));
    afterFirst := c.selectedItems;
    c.Dispatch(ChangeType.ItemClick, ComboboxState(false, 0, Some(apple), "Apple"));
    afterSecond := c.selectedItems;
  }

  /** Space on the highlighted option of an open multi-select menu selects it,
      leaves the search text alone and keeps downshift from handling the key. */
  method SpaceKeyScenario() returns (prevented: bool, selected: seq<Item>, search: string)
    ensures prevented && search == "ap"
    ensures selected == [Item(map["label" := Str("Apricot")])]
  {
    var apple := Item(map["label" := Str("Apple")]);
    var apricot := Item(map["label" := Str("Apricot")]);
    var banana := Item(map["label" := Str("Banana")]);
    var c := new Combobox(true, [apple, apricot, banana], "label", None, [], None);
    c.Dispatch(InputChange, ComboboxState(true, 1, None, "ap"));
    ApricotScenario();
    prevented := c.HandleMultiSelectInputKeyDown(" ");
    selected := c.selectedItems;
    search := c.search;
  }
}
