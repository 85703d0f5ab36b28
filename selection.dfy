/** The multi-select toggle: picking an option that is already selected
    deselects it (every equal entry goes), picking any other option appends it. */
module Selection {
  import opened JsValues

  /** `getIsInSelectedOptions`: membership under deep equality. An option is
      selected exactly when some entry of the selection equals it, that is,
      when it occurs at least once. */
  predicate IsSelected(selected: seq<Item>, x: Item)
    ensures IsSelected(selected, x) <==> exists i :: 0 <= i < |selected| && selected[i] == x
    ensures IsSelected(selected, x) <==> multiset(selected)[x] > 0
  {
    x in selected
  }

  /** `selected.filter((item) => !isEqual(item, x))`. */
  function RemoveAll(selected: seq<Item>, x: Item): (r: seq<Item>)
    ensures |r| <= |selected|
    ensures x !in r
    ensures forall y :: y != x ==> multiset(r)[y] == multiset(selected)[y]
  {
    if selected == [] then []
    else
      var rest := RemoveAll(selected[1..], x);
      assert selected == [selected[0]] + selected[1..];
      if selected[0] == x then rest else [selected[0]] + rest
  }

  /** The selection after `x` is picked: either `x` is appended
      (`addSelectedItem`) or every entry equal to it is filtered out
      (`setSelectedItems` with the filtered list). */
  function Toggle(selected: seq<Item>, x: Item): (r: seq<Item>)
    ensures x in r <==> x !in selected
    ensures forall y :: y != x ==> multiset(r)[y] == multiset(selected)[y]
    ensures x !in selected ==> |r| == |selected| + 1 && r[..|selected|] == selected
  {
    if IsSelected(selected, x) then RemoveAll(selected, x) else selected + [x]
  }

  /** No two entries of the selection are equal. */
  predicate NoDuplicates(s: seq<Item>)
  {
    forall i, j :: 0 <= i < j < |s| ==> s[i] != s[j]
  }

  /** Removing entries keeps the others in their relative order. */
  lemma {:induction false} RemoveAllIsSubsequence(selected: seq<Item>, x: Item)
    ensures IsSubsequence(RemoveAll(selected, x), selected)
  {
    if selected != [] {
      RemoveAllIsSubsequence(selected[1..], x);
      var rest := RemoveAll(selected[1..], x);
      if selected[0] == x && rest != [] {
        assert rest[0] in rest;
      }
    }
  }

  /** Picking an option that is not selected appends it at the end; picking
      one that is selected removes every equal entry and keeps all the others
      in their relative order. */
  lemma ToggleOrder(selected: seq<Item>, x: Item)
    ensures x !in selected ==> Toggle(selected, x) == selected + [x]
    ensures x in selected ==>
      IsSubsequence(Toggle(selected, x), selected) && |Toggle(selected, x)| < |selected|
  {
    if x in selected {
      RemoveAllIsSubsequence(selected, x);
      assert multiset(selected)[x] > 0;
      RemoveAllShrinks(selected, x);
    }
  }

  /** Removing an option that is present makes the list shorter. */
  lemma {:induction false} RemoveAllShrinks(selected: seq<Item>, x: Item)
    requires x in selected
    ensures |RemoveAll(selected, x)| < |selected|
  {
    if selected[0] != x {
      RemoveAllShrinks(selected[1..], x);
    }
  }

  /** Removing an option from the end of a list that held it only there. */
  lemma {:induction false} RemoveAllAppended(selected: seq<Item>, x: Item)
    requires x !in selected
    ensures RemoveAll(selected + [x], x) == selected
  {
    if selected == [] {
      assert [x][1..] == [];
    } else {
      assert (selected + [x])[1..] == selected[1..] + [x];
      RemoveAllAppended(selected[1..], x);
      assert selected == [selected[0]] + selected[1..];
    }
  }

  /** Picking an unselected option twice leaves the selection as it was. */
  lemma ToggleTwice(selected: seq<Item>, x: Item)
    requires x !in selected
    ensures Toggle(Toggle(selected, x), x) == selected
  {
    RemoveAllAppended(selected, x);
  }

  /** Filtering out entries keeps a duplicate-free list duplicate-free. */
  lemma {:induction false} RemoveAllKeepsNoDuplicates(selected: seq<Item>, x: Item)
    requires NoDuplicates(selected)
    ensures NoDuplicates(RemoveAll(selected, x))
  {
    if selected != [] {
      var tail := selected[1..];
      assert NoDuplicates(tail) by {
        forall i, j | 0 <= i < j < |tail| ensures tail[i] != tail[j] {
          assert tail[i] == selected[i + 1] && tail[j] == selected[j + 1];
        }
      }
      RemoveAllKeepsNoDuplicates(tail, x);
      var rest := RemoveAll(tail, x);
      if selected[0] != x {
        assert selected[0] !in tail by {
          forall j | 0 <= j < |tail| ensures tail[j] != selected[0] {
            assert tail[j] == selected[j + 1];
          }
        }
        assert multiset(tail)[selected[0]] == 0;
        var r := [selected[0]] + rest;
        forall i, j | 0 <= i < j < |r| ensures r[i] != r[j] {
          if i == 0 {
            assert r[j] == rest[j - 1];
          } else {
            assert r[i] == rest[i - 1] && r[j] == rest[j - 1];
          }
        }
      }
    }
  }

  /** Toggling keeps a duplicate-free selection duplicate-free. */
  lemma ToggleKeepsNoDuplicates(selected: seq<Item>, x: Item)
    requires NoDuplicates(selected)
    ensures NoDuplicates(Toggle(selected, x))
  {
    if x in selected {
      RemoveAllKeepsNoDuplicates(selected, x);
    } else {
      var r := selected + [x];
      forall i, j | 0 <= i < j < |r| ensures r[i] != r[j] {
        if j == |selected| {
          assert r[i] == selected[i];
        } else {
          assert r[i] == selected[i] && r[j] == selected[j];
        }
      }
    }
  }
}
