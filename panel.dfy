/**
 * The rule-list panel (`WebView` in the panel script): the list of change
 * records and the multi-editor switch, changed in place by the panel's
 * buttons and by the `import` message, and written to the host's state store
 * after every change.
 */
module Panel {
  import opened Wrappers
  import opened JsValues
  import opened Records

  datatype PanelState = PanelState(changes: seq<ChangeRecord>, multiEditor: bool)

  /** What `init` uses when the store holds nothing. */
  const DefaultState := PanelState([], false)

  /** The list with the entries at i and j exchanged. */
  function Swapped<T>(s: seq<T>, i: nat, j: nat): (r: seq<T>)
    requires i < |s| && j < |s|
    ensures |r| == |s| && r[i] == s[j] && r[j] == s[i]
    ensures forall k :: 0 <= k < |s| && k != i && k != j ==> r[k] == s[k]
  {
    s[i := s[j]][j := s[i]]
  }

  /** `splice(i, 1)`: the entry at i taken out, the others keeping their order. */
  function Removed<T>(s: seq<T>, i: nat): (r: seq<T>)
    requires i < |s|
    ensures |r| == |s| - 1
    ensures forall k :: 0 <= k < i ==> r[k] == s[k]
    ensures forall k :: i <= k < |r| ==> r[k] == s[k + 1]
  {
    s[..i] + s[i + 1..]
  }

  /** Swapping is a permutation, and swapping the same two entries again restores the list. */
  lemma SwappedTwice<T>(s: seq<T>, i: nat, j: nat)
    requires i < |s| && j < |s|
    ensures Swapped(Swapped(s, i, j), i, j) == s
    ensures Swapped(s, i, j) == Swapped(s, j, i)
    ensures multiset(Swapped(s, i, j)) == multiset(s)
  {
    var r := Swapped(Swapped(s, i, j), i, j);
    assert forall k :: 0 <= k < |s| ==> r[k] == s[k];
    assert Swapped(s, i, j) == s[i := s[j]][j := s[i]];
  }

  /** Removal keeps every other entry: the multiset loses exactly the removed one. */
  lemma RemovedMultiset<T>(s: seq<T>, i: nat)
    requires i < |s|
    ensures multiset(Removed(s, i)) == multiset(s) - multiset{s[i]}
  {
    assert s == s[..i] + [s[i]] + s[i + 1..];
  }

  /** The host-side store behind `getState` and `setState`; it outlives the panel script. */
  class VsCodeApi {
    var state: Option<PanelState>

    constructor (initial: Option<PanelState>)
      ensures state == initial
    {
      state := initial;
    }
  }

  class WebView {
    const vscode: VsCodeApi
    var changes: seq<ChangeRecord>
    var multiEditor: bool

    function State(): PanelState
      reads this
    {
      PanelState(changes, multiEditor)
    }

    /** The saved state always equals the current state. */
    ghost predicate Valid()
      reads this, vscode
    {
      vscode.state == Some(State())
    }

    /** The constructor and `init`: restore the saved state, or start empty, then save. */
    constructor (vscode: VsCodeApi)
      modifies vscode
      ensures this.vscode == vscode
      ensures State() == if old(vscode.state).Some? then old(vscode.state).value else DefaultState
      ensures Valid()
    {
      this.vscode := vscode;
      var oldState := if vscode.state.Some? then vscode.state.value else DefaultState;
      changes := oldState.changes;
      multiEditor := oldState.multiEditor;
      new;
      UpdateChangeList();
    }

    /** The state write at the end of `updateChangeList` (the rendering is not modelled). */
    method UpdateChangeList()
      modifies vscode
      ensures Valid()
    {
      vscode.state := Some(State());
    }

    /** The "add change" button: `changes.push({})`. */
    method AddChange()
      requires Valid()
      modifies this, vscode
      ensures Valid()
      ensures changes == old(changes) + [EmptyRecord]
      ensures multiEditor == old(multiEditor)
    {
      changes := changes + [EmptyRecord];
      UpdateChangeList();
    }

    method HandleMultiEditorToggle()
      requires Valid()
      modifies this, vscode
      ensures Valid()
      ensures multiEditor == !old(multiEditor)
      ensures changes == old(changes)
    {
      multiEditor := !multiEditor;
      UpdateChangeList();
    }

    /** `handleChange(property, i)` fired with the text field's value. */
    method HandleChange(property: Field, i: nat, value: string)
      requires Valid() && i < |changes|
      modifies this, vscode
      ensures Valid()
      ensures |changes| == |old(changes)|
      ensures changes[i] == old(changes[i]).Set(property, Str(value))
      ensures forall k :: 0 <= k < |changes| && k != i ==> changes[k] == old(changes[k])
      ensures multiEditor == old(multiEditor)
    {
      changes := changes[i := changes[i].Set(property, Str(value))];
      UpdateChangeList();
    }

    /** `handleClick(property, i)`: the property negated, a missing one reading as false. */
    method HandleClick(property: Field, i: nat)
      requires Valid() && i < |changes|
      modifies this, vscode
      ensures Valid()
      ensures |changes| == |old(changes)|
      ensures changes[i] == old(changes[i]).Set(property, Bool(!Truthy(old(changes[i]).Get(property))))
      ensures forall k :: 0 <= k < |changes| && k != i ==> changes[k] == old(changes[k])
      ensures multiEditor == old(multiEditor)
    {
      changes := changes[i := changes[i].Set(property, Not(changes[i].Get(property)))];
      UpdateChangeList();
    }

    /** `reorder(pos1, pos2)`: the two records exchanged (as copies, so by value). */
    method Reorder(pos1: nat, pos2: nat)
      requires Valid() && pos1 < |changes| && pos2 < |changes|
      modifies this, vscode
      ensures Valid()
      ensures changes == Swapped(old(changes), pos1, pos2)
      ensures multiEditor == old(multiEditor)
    {
      var change1 := changes[pos1];
      changes := changes[pos1 := changes[pos2]];
      changes := changes[pos2 := change1];
      UpdateChangeList();
    }

    /** The "move up" button of entry i: wired to `reorder(i, i - 1)` only when i > 0. */
    method MoveUp(i: nat)
      requires Valid() && i < |changes|
      modifies this, vscode
      ensures Valid()
      ensures changes == if i > 0 then Swapped(old(changes), i, i - 1) else old(changes)
      ensures multiEditor == old(multiEditor)
    {
      if i > 0 {
        Reorder(i, i - 1);
      }
    }

    /** The "move down" button of entry i: wired to `reorder(i, i + 1)` only when i is not last. */
    method MoveDown(i: nat)
      requires Valid() && i < |changes|
      modifies this, vscode
      ensures Valid()
      ensures changes == if i < |old(changes)| - 1 then Swapped(old(changes), i, i + 1) else old(changes)
      ensures multiEditor == old(multiEditor)
    {
      if i < |changes| - 1 {
        Reorder(i, i + 1);
      }
    }

    /** The "delete item" button: `remove(pos)`. */
    method Remove(pos: nat)
      requires Valid() && pos < |changes|
      modifies this, vscode
      ensures Valid()
      ensures changes == Removed(old(changes), pos)
      ensures multiEditor == old(multiEditor)
    {
      changes := changes[..pos] + changes[pos + 1..];
      UpdateChangeList();
    }

    /** The `import` message: the list replaced wholesale. */
    method ReceiveImport(imported: seq<ChangeRecord>)
      requires Valid()
      modifies this, vscode
      ensures Valid()
      ensures changes == imported
      ensures multiEditor == old(multiEditor)
    {
      changes := imported;
      UpdateChangeList();
    }
  }

  /** A panel opened again on the same store starts from the state the last one saved. */
  method Reopen(w: WebView) returns (w': WebView)
    requires w.Valid()
    modifies w.vscode
    ensures fresh(w') && w'.vscode == w.vscode && w'.Valid()
    ensures w'.State() == old(w.State())
  {
    w' := new WebView(w.vscode);
  }

  /** Moving entry i up and then moving it down again (now at i - 1) restores the list. */
  method MoveUpThenDown(w: WebView, i: nat)
    requires w.Valid() && 0 < i < |w.changes|
    modifies w, w.vscode
    ensures w.Valid() && w.State() == old(w.State())
  {
    ghost var before := w.changes;
    w.MoveUp(i);
    w.MoveDown(i - 1);
    SwappedTwice(before, i, i - 1);
  }
}
