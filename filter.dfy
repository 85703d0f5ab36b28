/** The combobox's default option filter: keep the options whose label,
    lower-cased, starts with the lower-cased search text. Options whose label
    field is missing, falsy or not a string are dropped with a warning. */
module LabelFilter {
  import opened JsValues

  /** What the filter finds in an option's label field: the two malformed
      cases, each with its own warning, or a usable label. */
  datatype LabelCheck = MissingLabel | NotAString | Label(text: string)

  /** The console warning the filter emits for a malformed option. */
  datatype Warning = FieldNotFound(field: string) | FieldNotString(field: string)

  /** The two guards of the filter callback, in the order the filter runs them:
      a falsy label first, then a label that is not a string. */
  function CheckLabel(item: Item, labelField: string): (c: LabelCheck)
    ensures c.Label? <==> Field(item, labelField).Str? && Field(item, labelField).s != ""
    ensures c.Label? ==> c.text == Field(item, labelField).s
    ensures c.MissingLabel? <==> !Truthy(Field(item, labelField))
  {
    var value := Field(item, labelField);
    if !Truthy(value) then MissingLabel
    else if !value.Str? then NotAString
    else Label(value.s)
  }

  /** The filter callback: a usable label that starts with the search text,
      both lower-cased. Only a usable label can match, and every usable label
      matches the empty search. */
  predicate Matches(item: Item, search: string, labelField: string)
    ensures Matches(item, search, labelField) ==>
      CheckLabel(item, labelField).Label? && |search| <= |CheckLabel(item, labelField).text|
    ensures search == "" ==> (Matches(item, search, labelField) <==> CheckLabel(item, labelField).Label?)
  {
    match CheckLabel(item, labelField)
    case Label(text) => Lower(search) <= Lower(text)
    case _ => false
  }

  /** `getDefaultFilter(labelField)(options, search)`. */
  function DefaultFilter(options: seq<Item>, search: string, labelField: string): (r: seq<Item>)
    ensures |r| <= |options|
    ensures forall x :: x in r ==> x in options && Matches(x, search, labelField)
    ensures forall x :: x in r ==> CheckLabel(x, labelField).Label?
  {
    if options == [] then []
    else
      var rest := DefaultFilter(options[1..], search, labelField);
      if Matches(options[0], search, labelField) then [options[0]] + rest else rest
  }

  /** The warnings one run of the default filter writes to the console, one per
      malformed option, in option order. They do not depend on the search. A
      missing or falsy label is reported as not found, any other label that
      is not a string as not a string. */
  function FilterWarnings(options: seq<Item>, labelField: string): (w: seq<Warning>)
    ensures |w| <= |options|
    ensures forall v :: v in w ==> v.field == labelField
    ensures FieldNotFound(labelField) in w <==>
      exists o :: o in options && CheckLabel(o, labelField).MissingLabel?
    ensures FieldNotString(labelField) in w <==>
      exists o :: o in options && CheckLabel(o, labelField).NotAString?
  {
    if options == [] then []
    else
      var rest := FilterWarnings(options[1..], labelField);
      match CheckLabel(options[0], labelField)
      case MissingLabel => [FieldNotFound(labelField)] + rest
      case NotAString => [FieldNotString(labelField)] + rest
      case Label(_) => rest
  }

  /** The filter keeps the options in their original order. */
  lemma {:induction false} DefaultFilterIsSubsequence(options: seq<Item>, search: string, labelField: string)
    ensures IsSubsequence(DefaultFilter(options, search, labelField), options)
  {
    if options != [] {
      DefaultFilterIsSubsequence(options[1..], search, labelField);
      var rest := DefaultFilter(options[1..], search, labelField);
      if !Matches(options[0], search, labelField) && rest != [] {
        // the first option is skipped; the rest is found in options[1..]
        assert rest[0] in rest;
        assert rest[0] != options[0];
      }
    }
  }

  /** The filter keeps every matching option as often as it occurs and no other
      option at all. Together with DefaultFilterIsSubsequence this pins the
      result down completely. */
  lemma {:induction false} DefaultFilterCount(options: seq<Item>, search: string, labelField: string, x: Item)
    ensures multiset(DefaultFilter(options, search, labelField))[x]
         == if Matches(x, search, labelField) then multiset(options)[x] else 0
  {
    if options != [] {
      DefaultFilterCount(options[1..], search, labelField, x);
      assert options == [options[0]] + options[1..];
    }
  }

  /** A malformed option (label missing, falsy, or not a string) is never
      offered, whatever the search, the empty search included. */
  lemma MalformedNeverKept(options: seq<Item>, search: string, labelField: string, x: Item)
    requires !Field(x, labelField).Str? || Field(x, labelField).s == ""
    ensures x !in DefaultFilter(options, search, labelField)
  {
  }

  /** With an empty search the filter keeps exactly the options whose label is
      a non-empty string, each as often as it occurs. */
  lemma EmptySearchKeepsLabelled(options: seq<Item>, labelField: string, x: Item)
    ensures multiset(DefaultFilter(options, "", labelField))[x]
         == if Field(x, labelField).Str? && Field(x, labelField).s != "" then multiset(options)[x] else 0
  {
    DefaultFilterCount(options, "", labelField, x);
  }

  /** With an empty search, every option is either offered or warned about. */
  lemma {:induction false} EmptySearchPartition(options: seq<Item>, labelField: string)
    ensures |DefaultFilter(options, "", labelField)| + |FilterWarnings(options, labelField)| == |options|
  {
    if options != [] {
      EmptySearchPartition(options[1..], labelField);
    }
  }

  /** The comparison ignores case: searching for the lower-cased text offers
      the same options as searching for the text itself. */
  lemma {:induction false} SearchIgnoresCase(options: seq<Item>, search: string, labelField: string)
    ensures DefaultFilter(options, Lower(search), labelField) == DefaultFilter(options, search, labelField)
  {
    LowerIdempotent(search);
    if options != [] {
      SearchIgnoresCase(options[1..], search, labelField);
    }
  }

  /** An option labelled with a non-empty string matches when the search
      agrees with the start of the label letter by letter, ignoring case. */
  lemma MatchesByLetters(item: Item, search: string, labelField: string, text: string)
    requires Field(item, labelField) == Str(text) && text != ""
    requires |search| <= |text|
    requires forall i :: 0 <= i < |search| ==> LowerChar(search[i]) == LowerChar(text[i])
    ensures Matches(item, search, labelField)
  {
  }

  /** An option labelled with a non-empty string does not match when the
      first letters differ, ignoring case. */
  lemma MismatchByFirstLetter(item: Item, search: string, labelField: string, text: string)
    requires Field(item, labelField) == Str(text) && text != ""
    requires search != [] && LowerChar(search[0]) != LowerChar(text[0])
    ensures !Matches(item, search, labelField)
  {
  }

  /** Three options of which the first two match. */
  lemma FilterOfThree(a: Item, b: Item, c: Item, search: string, labelField: string)
    requires Matches(a, search, labelField) && Matches(b, search, labelField)
    requires !Matches(c, search, labelField)
    ensures DefaultFilter([a, b, c], search, labelField) == [a, b]
  {
    assert DefaultFilter([c], search, labelField) == [] by {
      assert [c][1..] == [];
    }
    assert DefaultFilter([b, c], search, labelField) == [b] by {
      assert [b, c][1..] == [c];
    }
    assert [a, b, c][1..] == [b, c];
  }

  /** Options labelled "Apple", "Apricot" and "Banana" searched for "ap" give
      the first two. */
  lemma ApricotScenario()
    ensures
      var apple := Item(map["label" := Str("Apple")]);
      var apricot := Item(map["label" := Str("Apricot")]);
      var banana := Item(map["label" := Str("Banana")]);
      DefaultFilter([apple, apricot, banana], "ap", "label") == [apple, apricot]
  {
    MatchesByLetters(Item(map["label" := Str("Apple")]), "ap", "label", "Apple");
    MatchesByLetters(Item(map["label" := Str("Apricot")]), "ap", "label", "Apricot");
    MismatchByFirstLetter(Item(map["label" := Str("Banana")]), "ap", "label", "Banana");
    FilterOfThree(Item(map["label" := Str("Apple")]), Item(map["label" := Str("Apricot")]),
                  Item(map["label" := Str("Banana")]), "ap", "label");
  }
}
