/** The part of downshift's single-select combobox state that the component
    reads, the kinds of state change downshift reports, and the component's
    own state reducer, which keeps the menu open while several options are
    picked by clicking. */
module Downshift {
  import opened JsValues

  /** `useCombobox.stateChangeTypes`. */
  datatype ChangeType =
    | InputKeyDownArrowDown
    | InputKeyDownArrowUp
    | InputKeyDownEscape
    | InputKeyDownHome
    | InputKeyDownEnd
    | InputKeyDownEnter
    | InputChange
    | InputBlur
    | MenuMouseLeave
    | ItemMouseMove
    | ItemClick
    | ToggleButtonClick
    | FunctionToggleMenu
    | FunctionOpenMenu
    | FunctionCloseMenu
    | FunctionSetHighlightedIndex
    | FunctionSelectItem
    | FunctionSetInputValue
    | FunctionReset
    | ControlledPropUpdatedSelectedItem

  /** The combobox state downshift keeps: whether the menu is open, the
      highlighted row of the filtered list (-1 for none), its own selected
      option slot, and the text in the input. */
  datatype ComboboxState = ComboboxState(
    isOpen: bool,
    highlightedIndex: int,
    selectedItem: Option<Item>,
    inputValue: string)

  /** `stateReducer(state, { type, changes })`: a click on an option in
      multi-select mode keeps the menu as it was (open or closed) and keeps the
      highlighted row; every other change goes through untouched. */
  function StateReducer(multiselect: bool, state: ComboboxState, changeType: ChangeType,
                        changes: ComboboxState): (r: ComboboxState)
    ensures r.selectedItem == changes.selectedItem && r.inputValue == changes.inputValue
    ensures r.(isOpen := changes.isOpen, highlightedIndex := changes.highlightedIndex) == changes
    ensures changeType == ItemClick && multiselect ==>
              r.isOpen == state.isOpen && r.highlightedIndex == state.highlightedIndex
    ensures changeType != ItemClick || !multiselect ==> r == changes
  {
    if changeType == ItemClick && multiselect then
      changes.(isOpen := state.isOpen, highlightedIndex := state.highlightedIndex)
    else
      changes
  }
}
