/**
 * The ordered list of query parameters with its selected index. The list and
 * the selection belong to the caller: every list edit is emitted as a new list
 * (and a new selection); only the inline name editor keeps state of its own.
 */
module QueryParamsBuilder {
  import opened Wrappers
  import opened Strings
  import opened QueryParameters

  /** A new parameter: `param_<now>`, a non-required string with an empty description. */
  function NewParameter(now: nat): Node {
    NewNode(GeneratedName("param_", now), Some(""))
  }

  /** A selection that denotes an element of the list, or none. */
  predicate ValidSelection(params: seq<Node>, selected: Option<nat>) {
    selected.None? || selected.value < |params|
  }

  /** `addParameter`: the new parameter goes last, earlier ones are kept, and the new last index is selected. */
  function AddParameter(params: seq<Node>, now: nat): (r: (seq<Node>, Option<nat>))
    ensures |r.0| == |params| + 1 && r.0[..|params|] == params && r.0[|params|] == NewParameter(now)
    ensures r.1 == Some(|params|) && ValidSelection(r.0, r.1)
  {
    var newParams := params + [NewParameter(now)];
    (newParams, Some(|newParams| - 1))
  }

  /** `filter((_, i) => i !== index)` over the elements from position `from` on. */
  function KeepOthers(params: seq<Node>, index: nat, from: nat): (r: seq<Node>)
    requires from <= |params|
    ensures r == if from <= index < |params| then params[from..index] + params[index + 1..] else params[from..]
    decreases |params| - from
  {
    if from == |params| then []
    else (if from == index then [] else [params[from]]) + KeepOthers(params, index, from + 1)
  }

  /**
   * `removeParameter`: the list without element `index`, and the selection the
   * caller is told about (an untouched selection is passed through).
   */
  function RemoveParameter(params: seq<Node>, selected: Option<nat>, index: nat): (r: (seq<Node>, Option<nat>))
    ensures index < |params| ==> r.0 == params[..index] + params[index + 1..]
    ensures index >= |params| ==> r.0 == params
  {
    var newParams := KeepOthers(params, index, 0);
    var selection :=
      if selected == Some(index) then (if |newParams| > 0 then Some(0) else None)
      else if selected.Some? && selected.value > index then Some(selected.value - 1)
      else selected;
    (newParams, selection)
  }

  /**
   * Removing a parameter keeps the selection on the same parameter: a higher
   * index moves down by one, a lower one stays; the removed selected parameter
   * hands the selection to index 0, or to none when the list is empty.
   */
  lemma RemoveParameterSelection(params: seq<Node>, selected: Option<nat>, index: nat)
    requires index < |params| && ValidSelection(params, selected)
    ensures var (newParams, selection) := RemoveParameter(params, selected, index);
      && ValidSelection(newParams, selection)
      && (selected == Some(index) ==> selection == if |params| > 1 then Some(0) else None)
      && (selected.Some? && selected.value > index ==>
            selection == Some(selected.value - 1) && newParams[selected.value - 1] == params[selected.value])
      && (selected.Some? && selected.value < index ==>
            selection == selected && newParams[selected.value] == params[selected.value])
      && (selected.None? ==> selection.None?)
  {
  }

  /**
   * `finishEditingName`: the buffer, untrimmed, becomes the name of parameter
   * `index` when it is not blank and differs from the current name; nothing
   * else changes, and names are not checked against the other parameters.
   * The parameter is only looked at when the buffer is not blank.
   */
  function CommitName(params: seq<Node>, index: nat, buffer: string): (r: Option<seq<Node>>)
    requires !IsBlank(buffer) ==> index < |params|
    ensures r.Some? <==> !IsBlank(buffer) && buffer != params[index].name
    ensures r.Some? ==>
      && |r.value| == |params|
      && r.value[index].name == buffer
      && r.value[index].(name := params[index].name) == params[index]
      && forall j :: 0 <= j < |params| && j != index ==> r.value[j] == params[j]
  {
    if !IsBlank(buffer) && buffer != params[index].name then
      Some(params[index := params[index].(name := buffer)])
    else None
  }

  /** A name that another parameter already has is committed all the same. */
  lemma CommitNameAllowsDuplicates(params: seq<Node>, index: nat, other: nat)
    requires index < |params| && other < |params| && other != index
    requires !IsBlank(params[other].name) && params[other].name != params[index].name
    ensures var r := CommitName(params, index, params[other].name);
      r.Some? && r.value[index].name == r.value[other].name
  {
  }

  /** The inline name editor: which parameter is being renamed, and the text typed so far. */
  class NameEditor {
    var editingNameIndex: Option<nat>
    var editingName: string

    constructor ()
      ensures editingNameIndex == None && editingName == ""
    {
      editingNameIndex := None;
      editingName := "";
    }

    /** `startEditingName`: opens the editor on `index`, loaded with its current name. */
    method StartEditingName(params: seq<Node>, index: nat)
      requires index < |params|
      modifies this
      ensures editingNameIndex == Some(index) && editingName == params[index].name
    {
      editingNameIndex := Some(index);
      editingName := params[index].name;
    }

    /** Typing into the name input. */
    method SetEditingName(text: string)
      modifies this
      ensures editingName == text && editingNameIndex == old(editingNameIndex)
    {
      editingName := text;
    }

    /** `finishEditingName`: emits the renamed list when `CommitName` allows it, and always closes the editor. */
    method FinishEditingName(params: seq<Node>, index: nat) returns (emitted: Option<seq<Node>>)
      requires !IsBlank(editingName) ==> index < |params|
      modifies this
      ensures emitted == CommitName(params, index, old(editingName))
      ensures editingNameIndex == None && editingName == old(editingName)
    {
      emitted := CommitName(params, index, editingName);
      editingNameIndex := None;
    }

    /** `handleKeyPress`: Enter commits, Escape closes without renaming, any other key does nothing. */
    method HandleKeyPress(key: string, params: seq<Node>, index: nat) returns (emitted: Option<seq<Node>>)
      requires key == "Enter" && !IsBlank(editingName) ==> index < |params|
      modifies this
      ensures key == "Enter" ==> emitted == CommitName(params, index, old(editingName)) && editingNameIndex == None
      ensures key == "Escape" ==> emitted == None && editingNameIndex == None
      ensures key != "Enter" && key != "Escape" ==> emitted == None && editingNameIndex == old(editingNameIndex)
      ensures editingName == old(editingName)
    {
      emitted := None;
      if key == "Enter" {
        emitted := FinishEditingName(params, index);
      } else if key == "Escape" {
        editingNameIndex := None;
      }
    }
  }
}
