/**
 * The admin panel's ingredient-row editor.  Every edit copies the incoming
 * array and changes the copy; the incoming array itself is never written
 * (the methods below modify nothing they did not allocate).
 */
module IngredientsEditor {
  import opened Js

  /** The row `addIngredient` appends. */
  const BlankRow := Obj(map["productName" := Str(""), "quantity" := Str(""), "unit" := Str("")])

  /** Where `splice(index, 1)` starts: a negative index counts from the end, and both ends are clamped. */
  function SpliceStart(index: int, n: nat): (k: nat)
    ensures k <= n
    ensures 0 <= index <= n ==> k == index
    ensures index > n ==> k == n
    ensures index < 0 ==> k == if n + index < 0 then 0 else n + index
  {
    if index < 0 then (if n + index < 0 then 0 else n + index)
    else if index > n then n
    else index
  }

  /** The rows after `splice(index, 1)`. */
  function Removed(rows: seq<Value>, index: int): seq<Value> {
    var k := SpliceStart(index, |rows|);
    if k < |rows| then rows[..k] + rows[k + 1..] else rows
  }

  /** For an index inside the list exactly that row goes; past the end nothing does; -1 drops the last row. */
  lemma RemovedRows(rows: seq<Value>, index: int)
    ensures 0 <= index < |rows| ==>
      |Removed(rows, index)| == |rows| - 1
      && Removed(rows, index)[..index] == rows[..index]
      && Removed(rows, index)[index..] == rows[index + 1..]
    ensures index >= |rows| ==> Removed(rows, index) == rows
    ensures rows != [] ==> Removed(rows, -1) == rows[..|rows| - 1]
  {
  }

  /** `{ ...row, [field]: value }`. */
  function WithField(row: Value, field: string, value: Value): (r: Value)
    ensures r.Obj? && r.fields.Keys == FieldsOf(row).Keys + {field}
    ensures r.fields[field] == value
    ensures forall k :: k in FieldsOf(row) && k != field ==> r.fields[k] == FieldsOf(row)[k]
  {
    Obj(FieldsOf(row)[field := value])
  }

  /** `update(index, field, value)`. */
  method Update(ingredients: array<Value>, index: int, field: string, value: Value) returns (updated: array<Value>)
    requires 0 <= index < ingredients.Length
    ensures fresh(updated) && updated.Length == ingredients.Length
    ensures forall i :: 0 <= i < updated.Length && i != index ==> updated[i] == ingredients[i]
    ensures updated[index] == WithField(ingredients[index], field, value)
  {
    updated := new Value[ingredients.Length];
    var i := 0;
    while i < ingredients.Length
      invariant 0 <= i <= ingredients.Length
      invariant forall j :: 0 <= j < i ==> updated[j] == ingredients[j]
    {
      updated[i] := ingredients[i];
      i := i + 1;
    }
    updated[index] := WithField(updated[index], field, value);
  }

  /** `addIngredient`. */
  method Add(ingredients: array<Value>) returns (updated: array<Value>)
    ensures fresh(updated) && updated[..] == ingredients[..] + [BlankRow]
  {
    updated := new Value[ingredients.Length + 1];
    var i := 0;
    while i < ingredients.Length
      invariant 0 <= i <= ingredients.Length
      invariant forall j :: 0 <= j < i ==> updated[j] == ingredients[j]
    {
      updated[i] := ingredients[i];
      i := i + 1;
    }
    updated[ingredients.Length] := BlankRow;
  }

  /** `removeIngredient(index)`: the copy without the row `splice` removes. */
  method Remove(ingredients: array<Value>, index: int) returns (updated: array<Value>)
    ensures fresh(updated) && updated[..] == Removed(ingredients[..], index)
  {
    var n := ingredients.Length;
    var k := SpliceStart(index, n);
    if k == n {
      updated := new Value[n];
      var i := 0;
      while i < n
        invariant 0 <= i <= n
        invariant forall j :: 0 <= j < i ==> updated[j] == ingredients[j]
      {
        updated[i] := ingredients[i];
        i := i + 1;
      }
      return;
    }
    var rest := ingredients[..k] + ingredients[k + 1..];
    updated := new Value[n - 1];
    var i := 0;
    while i < n - 1
      invariant 0 <= i <= n - 1
      invariant forall j :: 0 <= j < i ==> updated[j] == rest[j]
    {
      updated[i] := if i < k then ingredients[i] else ingredients[i + 1];
      assert updated[i] == rest[i];
      i := i + 1;
    }
    assert updated[..] == rest;
  }
}
