# Combobox interaction logic, modelled in Dafny

This project models the decision logic of the `Combobox` React component of
the Helsinki design system (`packages/react/src/components/dropdown/combobox/Combobox.tsx`).
The component is a searchable dropdown. In single-select mode it picks one
option. In multi-select mode it keeps a list of "chips". The model covers
the five pieces of logic the component adds on top of its libraries
(downshift, react-virtual, lodash):

- **Default filter** (`LabelFilter`): `getDefaultFilter`. An option is kept
  when its label field holds a non-empty string whose lower-cased form starts
  with the lower-cased search text. A missing or falsy label, or one that is
  not a string, drops the option and logs a console warning.
  `FilterWarnings` gives that log.
- **Multi-select toggle** (`Selection`): picking a selected option removes
  every equal entry. Picking any other option appends it.
- **State reducer** (`Downshift`): a click on an option in multi-select mode
  keeps the menu open state and the highlighted row as they were.
- **Focus guard** (`FocusGuard`): a pure state machine over the `hasFocus`
  and `isClicking` flags and the host's `onFocus`/`onBlur` callbacks.
- **The component** (`ComboboxComponent.Combobox`): a class holding the
  search text, the two flags, the selection, downshift's state and the log of
  host callbacks. Its event handlers are methods, each specified by the pure
  functions above. The derived flags `showPlaceholder` and `isInputVisible`
  are functions of its state.

Options are records (`JsValues.Item`, a map from field names to JavaScript
values). `lodash.isequal` deep equality is datatype equality.
`getIsInSelectedOptions` is membership. The external focus predicates
`getIsElementFocused` and `getIsElementBlurred` are boolean parameters of the
wrapper handlers.

The doc comment of the `filter` prop (Combobox.tsx:28-34) says the default
filter assumes the label field holds a string. The filter's first guard
(Combobox.tsx:44) is a falsiness test, so it also drops an option labelled
with the empty string. Such an option is never offered, even for an empty
search (`LabelFilter.EmptySearchKeepsLabelled`). A label of `0`, `false` or
`null` fails that first guard too. It therefore gets the "could not be found"
warning, not the "not a string" one (`LabelFilter.FilterWarnings`).

The class invariant `Combobox.Valid` states two things that hold between
events. In multi-select mode, downshift's selected-item slot is empty. The
search text equals the text in the input. `Dispatch` keeps this invariant
under its precondition, and so does every other event handler.

## Model

| member | source | states |
|---|---|---|
| `JsValues.Field` | packages/react/src/components/dropdown/combobox/Combobox.tsx:41 | reading an option's field gives its value; a field that is not there reads as `undefined`, which is falsy |
| `JsValues.Truthy` | packages/react/src/components/dropdown/combobox/Combobox.tsx:44 | `undefined` and `null` are falsy; a string is truthy exactly when it is not empty |
| `JsValues.LowerChar` | packages/react/src/components/dropdown/combobox/Combobox.tsx:58 | `toLowerCase` on one character: an upper-case ASCII letter becomes its lower-case letter, 32 code points up; every other character stays |
| `JsValues.Lower` | packages/react/src/components/dropdown/combobox/Combobox.tsx:58 | `toLowerCase` on a string keeps its length and lower-cases each character in place |
| `JsValues.LowerIdempotent` | packages/react/src/components/dropdown/combobox/Combobox.tsx:58 | lower-casing (ASCII `toLowerCase`) a second time changes nothing |
| `LabelFilter.CheckLabel` | packages/react/src/components/dropdown/combobox/Combobox.tsx:41-56 | the label is usable exactly when the field holds a non-empty string, and then it is that string; the "could not be found" case is exactly a falsy field value |
| `LabelFilter.Matches` | packages/react/src/components/dropdown/combobox/Combobox.tsx:40-58 | only an option with a usable label at least as long as the search can match; with an empty search, every option with a usable label matches |
| `LabelFilter.DefaultFilter` | packages/react/src/components/dropdown/combobox/Combobox.tsx:38-61 | every kept option comes from the input, has a usable label, and its lower-cased label starts with the lower-cased search; the result is no longer than the input |
| `LabelFilter.FilterWarnings` | packages/react/src/components/dropdown/combobox/Combobox.tsx:44-56 | the console warnings: at most one per option, each naming the label field; a "could not be found" warning appears exactly when some option's label is missing or falsy, and a "not a string" warning exactly when some option's label is truthy but not a string |
| `LabelFilter.DefaultFilterIsSubsequence` | packages/react/src/components/dropdown/combobox/Combobox.tsx:40-59 | the filtered options keep their original relative order |
| `LabelFilter.DefaultFilterCount` | packages/react/src/components/dropdown/combobox/Combobox.tsx:40-58 | a matching option is kept as often as it occurs and a non-matching one never; together with the order lemma this fixes the result |
| `LabelFilter.MalformedNeverKept` | packages/react/src/components/dropdown/combobox/Combobox.tsx:44-56 | an option whose label is missing, falsy or not a string is never offered, for any search |
| `LabelFilter.EmptySearchKeepsLabelled` | packages/react/src/components/dropdown/combobox/Combobox.tsx:44-58 | with an empty search, exactly the options labelled with a non-empty string are kept, each as often as it occurs |
| `LabelFilter.EmptySearchPartition` | packages/react/src/components/dropdown/combobox/Combobox.tsx:40-59 | with an empty search, every option is either offered or warned about |
| `LabelFilter.SearchIgnoresCase` | packages/react/src/components/dropdown/combobox/Combobox.tsx:58 | searching for the lower-cased text gives the same options as the text itself |
| `LabelFilter.ApricotScenario` | packages/react/src/components/dropdown/combobox/Combobox.tsx:38-61 | "Apple", "Apricot", "Banana" searched for "ap" give "Apple", "Apricot" |
| `Selection.IsSelected` | packages/react/src/components/dropdown/combobox/Combobox.tsx:189 | an option counts as selected exactly when some entry of the selection deep-equals it, that is, when it occurs at least once |
| `Selection.RemoveAll` | packages/react/src/components/dropdown/combobox/Combobox.tsx:213 | after filtering out an option, no equal entry is left and every other entry keeps its count |
| `Selection.RemoveAllIsSubsequence` | packages/react/src/components/dropdown/combobox/Combobox.tsx:213 | filtering out an option keeps the other entries in their relative order |
| `Selection.RemoveAllKeepsNoDuplicates` | packages/react/src/components/dropdown/combobox/Combobox.tsx:213 | filtering out an option keeps a duplicate-free list duplicate-free |
| `Selection.Toggle` | packages/react/src/components/dropdown/combobox/Combobox.tsx:211-215 | the picked option is selected afterwards exactly when it was not before; every other option keeps its count; an absent option is appended after the old selection |
| `Selection.ToggleOrder` | packages/react/src/components/dropdown/combobox/Combobox.tsx:211-215 | picking an absent option appends it at the end; picking a present one shortens the selection and keeps the rest in order |
| `Selection.ToggleTwice` | packages/react/src/components/dropdown/combobox/Combobox.tsx:189-191 | picking the same absent option twice gives back the original selection |
| `Selection.ToggleKeepsNoDuplicates` | packages/react/src/components/dropdown/combobox/Combobox.tsx:211-215 | toggling keeps the selection free of equal entries |
| `Downshift.StateReducer` | packages/react/src/components/dropdown/combobox/Combobox.tsx:195-208 | the reducer changes only `isOpen` and `highlightedIndex`; on a multi-select item click they are the previous state's, otherwise the changes pass through unchanged |
| `FocusGuard.FocusStep` | packages/react/src/components/dropdown/combobox/Combobox.tsx:219-239 | a callback fires exactly on a genuine wrapper focus or blur outside a click; `onFocus` leaves the flag set and `onBlur` cleared; while clicking, wrapper events change nothing; mouse-down starts a click and click ends it |
| `FocusGuard.RunFocus` | packages/react/src/components/dropdown/combobox/Combobox.tsx:219-239 | over a run of events, if no callback fired then the focus flag is unchanged |
| `FocusGuard.ClickingSuppressesWrapperEvents` | packages/react/src/components/dropdown/combobox/Combobox.tsx:219-225 | while an option is being clicked, any number of wrapper focus and blur events change nothing and reach no callback |
| `FocusGuard.FocusFlagFollowsLastCall` | packages/react/src/components/dropdown/combobox/Combobox.tsx:227-239 | after any run of events with at least one callback, the focus flag is set exactly when the last callback was `onFocus` |
| `FocusGuard.FocusGuardScenario` | packages/react/src/components/dropdown/combobox/Combobox.tsx:437-450 | mouse-down, blur, focus, click: no callback; a genuine blur and focus after the click fire `onBlur` then `onFocus` |
| `ComboboxComponent.Combobox.constructor` | packages/react/src/components/dropdown/combobox/Combobox.tsx:106-110 | on mount: no focus, no click, empty search; the selection is the `value` prop in a controlled multi-select, `defaultValue` otherwise |
| `ComboboxComponent.CommitsPick` | packages/react/src/components/dropdown/combobox/Combobox.tsx:186-188 | only blur, Enter and a click on an option commit a pick; typing does not, and neither does the component's own `selectItem(null)` |
| `ComboboxComponent.Combobox.FilteredItems` | packages/react/src/components/dropdown/combobox/Combobox.tsx:112-115 | a `filter` prop, when given, replaces the default filter: the offered options are its result for the options and the current search; without one they are exactly the default filter's result |
| `ComboboxComponent.Combobox.ShowPlaceholder` | packages/react/src/components/dropdown/combobox/Combobox.tsx:271 | the placeholder shows exactly when nothing is selected: an empty chip list in multi-select mode, an empty slot otherwise |
| `ComboboxComponent.Combobox.PlaceholderOnlyInVisibleInput` | packages/react/src/components/dropdown/combobox/Combobox.tsx:271-275 | whenever the placeholder flag is set, the input-visibility flag is set too |
| `ComboboxComponent.Combobox.IsInputVisible` | packages/react/src/components/dropdown/combobox/Combobox.tsx:275 | the input is hidden exactly in a closed multi-select with something selected: always visible in single-select mode and while the menu is open, hidden otherwise when the selection is not empty; when hidden, no placeholder shows |
| `ComboboxComponent.Combobox.SetSelectedItems` | packages/react/src/components/dropdown/combobox/Combobox.tsx:211-215 | the selection becomes the toggle of the old one; no duplicates are introduced; the class invariant is kept |
| `ComboboxComponent.Combobox.OnStateChange` | packages/react/src/components/dropdown/combobox/Combobox.tsx:185-193 | on blur, Enter or item click in multi-select mode with a picked option, the selection is toggled and downshift's slot is cleared; otherwise nothing changes; the class invariant is kept |
| `ComboboxComponent.Combobox.Dispatch` | packages/react/src/components/dropdown/combobox/Combobox.tsx:171-209 | a downshift change goes through the reducer, sets the search text to the input value, and in multi-select mode moves a pick into the selection; the slot stays empty between events |
| `ComboboxComponent.Combobox.HandleMultiSelectInputKeyDown` | packages/react/src/components/dropdown/combobox/Combobox.tsx:241-261 | downshift's default is suppressed exactly for Space, and for Backspace or ArrowLeft while the menu is open; Space toggles the highlighted option when one is highlighted; the search text never changes; the class invariant is kept |
| `ComboboxComponent.Combobox.ItemMouseDown` | packages/react/src/components/dropdown/combobox/Combobox.tsx:437-439 | mouse-down on an option starts a click |
| `ComboboxComponent.Combobox.ItemClick` | packages/react/src/components/dropdown/combobox/Combobox.tsx:448-450 | a click on an option ends the click |
| `ComboboxComponent.Combobox.WrapperFocus` | packages/react/src/components/dropdown/combobox/Combobox.tsx:227-232 | the guarded focus handler changes the flags and the callback log as the focus step does |
| `ComboboxComponent.Combobox.WrapperBlur` | packages/react/src/components/dropdown/combobox/Combobox.tsx:234-239 | the guarded blur handler changes the flags and the callback log as the focus step does |
| `ComboboxComponent.ClickTwiceScenario` | packages/react/src/components/dropdown/combobox/Combobox.tsx:185-193 | in a multi-select with nothing selected, clicking "Apple" selects it and clicking it again deselects it |
| `ComboboxComponent.SpaceKeyScenario` | packages/react/src/components/dropdown/combobox/Combobox.tsx:241-254 | Space on the highlighted "Apricot" selects it, leaves the search "ap" as it was, and suppresses downshift's handling |

## Left out

- Rendering: JSX, CSS class assembly, `FieldLabel`, `SelectedItems`, `DropdownMenu`, the error and helper texts, and the commented-out input block (lines 375-406). They are UI only.
- The icon components `IconArrowRedo` and `IconDownload`: static SVG markup with no logic.
- Virtualization (`useVirtual`, `scrollToIndex` in `onHighlightedIndexChange`, row offsets and measuring refs). It is an external library and DOM layout.
- The `useMemo` cache of the filtered options. It only affects performance; `FilteredItems` recomputes.
- downshift's own state machine: which changes each key, click or blur produces. `Dispatch` takes the changes as given. Its precondition is the one fact about them that the model relies on.
- `selectItem(null)` is modelled as clearing downshift's selected slot only. The state change that downshift runs for it (with its input-value reset) is not modelled.
- The multi-selection hook: `multiSelectReducer`, `onMultiSelectStateChange`, chip removal (`removeSelectedItem`), clear-all (`reset`) and the active chip index. Their sources are not part of this model. Controlled-mode overriding of selection changes is therefore not modelled either.
- The `onChange` callbacks fired by downshift's `onSelectedItemsChange` and `onSelectedItemChange`, and the single-select `value` prop (`selectedItem: value`). Only the multi-select `value` is modelled.
- The `controlled` flag (line 98). It is read only by `multiSelectReducer`, which is not part of this model. The same condition decides the initial selection, which the constructor states.
- `itemToString`, the `id` from `lodash.uniqueid`, the accessibility-message callbacks and the `getDropdownProps` call that only silences a downshift message.
- `handleWrapperClick`/`focusInput`: DOM focus, and not attached (the handler is commented out).
- `getIsElementFocused`, `getIsElementBlurred`: their source is not part of this model. Their results are the `entering`/`leaving` parameters.
- A custom `filter` prop is a parameter; nothing is proved about its result.
- The browser's default action for a key press, and any input event that follows it. `HandleMultiSelectInputKeyDown` only sets downshift's `preventDownshiftDefault` flag. Whether a Space typed into the input changes its text is not modelled.
- `toLowerCase` is modelled for ASCII letters only. Unicode case mapping is not modelled.
- JavaScript numbers are integers in `JsValues.Value`. NaN is not modelled. NaN is falsy, so its label would get the "could not be found" warning.
- React's render timing: each handler here sees the state its predecessor left. In the component, handlers read the state of the last render.
- `ComboboxComponent.Combobox.HandleMultiSelectInputKeyDown`: requires the highlighted index to lie inside the filtered list. Out of range, the component would read `undefined` and add it to the selection.
- `ComboboxComponent.Combobox.Dispatch`: requires that, in multi-select mode, downshift fills its selected slot only on blur, Enter or an item click. The model does not cover other change kinds that set the slot.
