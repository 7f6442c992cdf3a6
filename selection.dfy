/** The checked-node collection behind the action buttons of the download
    page: `getSelectedItems` walks the jqxTreeGrid rows and
    `processButtonAction` decides what a button press does with the result. */
module Selection {
  import opened Wrappers

  /** A jqxTreeGrid row. Rows whose `records` is undefined are walked exactly
      like rows with no records, so both are the empty sequence here. */
  datatype GridRow = GridRow(name: string, checked: bool, records: seq<GridRow>)

  /** Names of the checked rows in pre-order: a row, then its records, then
      its later siblings; records are visited whether or not their parent is
      checked. */
  function CheckedNames(rows: seq<GridRow>): seq<string>
    decreases rows
  {
    if rows == [] then []
    else (if rows[0].checked then [rows[0].name] else [])
         + CheckedNames(rows[0].records) + CheckedNames(rows[1..])
  }

  /** All rows of a forest in pre-order. */
  function Rows(forest: seq<GridRow>): seq<GridRow>
    decreases forest
  {
    if forest == [] then [] else [forest[0]] + Rows(forest[0].records) + Rows(forest[1..])
  }

  /** The names of the checked rows of a flat sequence, in order. */
  function NamesOfChecked(rows: seq<GridRow>): (r: seq<string>)
    ensures |r| <= |rows|
    ensures forall n :: n in r <==> exists k :: 0 <= k < |rows| && rows[k].checked && rows[k].name == n
  {
    if rows == [] then []
    else
      var r := (if rows[0].checked then [rows[0].name] else []) + NamesOfChecked(rows[1..]);
      assert forall k :: 1 <= k < |rows| ==> rows[k] == rows[1..][k - 1];
      r
  }

  lemma {:induction false} NamesOfCheckedAppend(a: seq<GridRow>, b: seq<GridRow>)
    ensures NamesOfChecked(a + b) == NamesOfChecked(a) + NamesOfChecked(b)
  {
    if a == [] {
      assert a + b == b;
    } else {
      assert (a + b)[0] == a[0];
      assert (a + b)[1..] == a[1..] + b;
      NamesOfCheckedAppend(a[1..], b);
    }
  }

  /** The traversal collects exactly the names of the checked rows of the
      whole forest, in pre-order. */
  lemma {:induction false} CheckedNamesInPreOrder(forest: seq<GridRow>)
    ensures CheckedNames(forest) == NamesOfChecked(Rows(forest))
    decreases forest
  {
    if forest != [] {
      CheckedNamesInPreOrder(forest[0].records);
      CheckedNamesInPreOrder(forest[1..]);
      NamesOfCheckedAppend([forest[0]] + Rows(forest[0].records), Rows(forest[1..]));
      NamesOfCheckedAppend([forest[0]], Rows(forest[0].records));
    }
  }

  lemma {:induction false} CheckedNamesAppend(a: seq<GridRow>, b: seq<GridRow>)
    ensures CheckedNames(a + b) == CheckedNames(a) + CheckedNames(b)
    decreases a
  {
    if a == [] {
      assert a + b == b;
    } else {
      assert (a + b)[0] == a[0];
      assert (a + b)[1..] == a[1..] + b;
      CheckedNamesAppend(a[1..], b);
    }
  }

  /** Walking one more top-level row appends its own name when it is
      checked, then the names collected below it. */
  lemma CheckedNamesStep(rows: seq<GridRow>, i: nat)
    requires i < |rows|
    ensures CheckedNames(rows[..i + 1]) ==
              CheckedNames(rows[..i]) + (if rows[i].checked then [rows[i].name] else []) + CheckedNames(rows[i].records)
  {
    assert rows[..i + 1] == rows[..i] + [rows[i]];
    CheckedNamesAppend(rows[..i], [rows[i]]);
    assert [rows[i]][1..] == [];
  }

  /** What a button press leads to once the selection is known. */
  datatype ButtonOutcome =
    | EmptySelectionError            // the "select at least one node" dialog
    | ConfirmDownload                // `get_data_btn` opens the confirmation modal
    | DictionaryDownload             // `dict_btn` downloads the dictionary
    | Post(url: Option<string>, loadingText: string)  // an AJAX POST; None is an undefined url

  /** The dispatch of `processButtonAction` after the selection is collected.
      Any button other than `refresh_btn` and `dict_btn` is refused with an
      error dialog when nothing is selected, before any request is built.
      (The source also tests for an undefined selection, which cannot happen
      right after the reset.) */
  function Dispatch(buttonId: string, selected: seq<string>): (r: ButtonOutcome)
    ensures r.EmptySelectionError? <==> buttonId != "refresh_btn" && buttonId != "dict_btn" && selected == []
    ensures buttonId == "refresh_btn" ==> r == Post(Some("/refresh_forms/"), "Refreshing forms...")
    ensures buttonId == "dict_btn" ==> r == DictionaryDownload
    ensures selected != [] ==> (r.ConfirmDownload? <==> buttonId == "get_data_btn")
    ensures selected != [] && buttonId == "update_btn" ==>
              r == Post(Some("/update_db_struct/"), "Updating DB structure...")
    ensures selected != [] && buttonId == "delete_btn" ==> r == Post(Some("/delete_db/"), "Loading...")
    ensures selected != [] && buttonId !in {"get_data_btn", "update_btn", "refresh_btn", "dict_btn", "delete_btn"} ==>
              r == Post(None, "Loading...")
  {
    if buttonId != "refresh_btn" && buttonId != "dict_btn" && selected == [] then EmptySelectionError
    else if buttonId == "get_data_btn" then ConfirmDownload
    else if buttonId == "update_btn" then Post(Some("/update_db_struct/"), "Updating DB structure...")
    else if buttonId == "refresh_btn" then Post(Some("/refresh_forms/"), "Refreshing forms...")
    else if buttonId == "dict_btn" then DictionaryDownload
    else if buttonId == "delete_btn" then Post(Some("/delete_db/"), "Loading...")
    else Post(None, "Loading...")
  }
}
