/** The demo's "select all" checkbox over three item checkboxes. */
module CheckboxDemo {

  /** `items().every(Boolean)`. */
  function AllChecked(items: seq<bool>): (r: bool)
    ensures r <==> forall i :: 0 <= i < |items| ==> items[i]
    decreases |items|
  {
    if items == [] then true else items[0] && AllChecked(items[1..])
  }

  /** `items().some(Boolean)`. */
  function AnyChecked(items: seq<bool>): (r: bool)
    ensures r <==> exists i :: 0 <= i < |items| && items[i]
    decreases |items|
  {
    if items == [] then false else items[0] || AnyChecked(items[1..])
  }

  /** The "select all" box is indeterminate when some but not all items are checked. */
  function SomeChecked(items: seq<bool>): (r: bool)
    ensures r ==> !AllChecked(items)
    ensures r <==> (exists i :: 0 <= i < |items| && items[i]) && (exists j :: 0 <= j < |items| && !items[j])
  {
    AnyChecked(items) && !AllChecked(items)
  }

  const InitialItems: seq<bool> := [false, false, false]

  /** `toggleAll(checked)`. */
  function ToggleAll(checked: bool): seq<bool> {
    [checked, checked, checked]
  }

  /** After "select all" every item has the new value and the box is not indeterminate. */
  lemma ToggleAllSettles(checked: bool)
    ensures |ToggleAll(checked)| == 3
    ensures AllChecked(ToggleAll(checked)) == checked
    ensures !SomeChecked(ToggleAll(checked))
  {
    assert ToggleAll(checked)[0] == checked;
  }

  /** `toggleItem(index, checked)`: a copy with one entry replaced. */
  function ToggleItem(items: seq<bool>, index: int, checked: bool): (r: seq<bool>)
    requires 0 <= index < |items|
    ensures |r| == |items|
    ensures r[index] == checked
    ensures forall j :: 0 <= j < |items| && j != index ==> r[j] == items[j]
  {
    items[index := checked]
  }

  /** The three-way state the "select all" box shows. */
  datatype MasterState = Checked | Indeterminate | Unchecked

  function Master(items: seq<bool>): (r: MasterState)
    ensures r == Checked <==> AllChecked(items)
    ensures r == Indeterminate <==> SomeChecked(items)
  {
    if AllChecked(items) then Checked else if SomeChecked(items) then Indeterminate else Unchecked
  }

  /** Checking one item of an all-unchecked list makes the box indeterminate
      (with more than one item), and checking the last unchecked item checks it. */
  lemma {:induction false} ToggleItemMaster(items: seq<bool>, index: int)
    requires 0 <= index < |items|
    ensures |items| > 1 && !AnyChecked(items) ==> Master(ToggleItem(items, index, true)) == Indeterminate
    ensures (forall j :: 0 <= j < |items| && j != index ==> items[j]) ==> Master(ToggleItem(items, index, true)) == Checked
  {
    var r := ToggleItem(items, index, true);
    if |items| > 1 && !AnyChecked(items) {
      var other := if index == 0 then 1 else 0;
      assert !r[other];
      assert r[index];
    }
  }
}
