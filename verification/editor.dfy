/** The editing panel shared by the co-run, phase-restriction and
    load-limit builders: a draft entry, a flag for "adding", an optional
    index being edited, and the messages of the last rejected save. The
    handlers are pure transitions; a save also yields the list handed to
    `onUpdate`, or nothing when no update is made. */
module Editor {
  import opened Base
  import opened Cells
  import opened ListEdit
  import opened RuleValidators

  datatype Panel<T, E> = Panel(isAdding: bool, editingIndex: Option<nat>, draft: T, errors: seq<E>)

  /** What a handler leaves behind: the new panel state and, when the
      handler called `onUpdate`, the list it passed. */
  datatype Step<T, E> = Step(panel: Panel<T, E>, update: Option<seq<T>>)

  /** Closed, with the blank draft and no messages: the state after
      `useState`, an accepted save and a cancel. */
  predicate Idle<T(==), E>(p: Panel<T, E>, blank: T)
  {
    !p.isAdding && p.editingIndex.None? && p.draft == blank && p.errors == []
  }

  /** The editor is shown while adding or while an index is being edited. */
  predicate Shown<T, E>(p: Panel<T, E>)
  {
    p.isAdding || p.editingIndex.Some?
  }

  function Initial<T(==), E>(blank: T): (p: Panel<T, E>)
    ensures Idle(p, blank) && !Shown(p)
  {
    Panel(false, None, blank, [])
  }

  /** A cancel, from any state, returns the panel to its initial state. */
  lemma CancelRestoresInitial<T, E>(p: Panel<T, E>, blank: T)
    ensures Cancel(p, blank) == Initial(blank)
  {
  }

  /** Where a committed draft lands: over the edited index, or at the end. */
  function Commit<T>(list: seq<T>, index: Option<nat>, x: T): seq<T>
  {
    match index
    case Some(i) => ReplaceAt(list, i, x)
    case None => list + [x]
  }

  /** `handleAdd…`: open with the blank draft; an edited index is kept. */
  function StartAdd<T, E>(p: Panel<T, E>, blank: T): (r: Panel<T, E>)
    ensures Shown(r) && r.draft == blank && r.errors == []
    ensures r.editingIndex == p.editingIndex
  {
    p.(isAdding := true, draft := blank, errors := [])
  }

  /** `handleEdit…(i)`: edit a copy of entry `i`; the adding flag is kept. */
  function StartEdit<T, E>(p: Panel<T, E>, list: seq<T>, i: nat): (r: Panel<T, E>)
    requires i < |list|
    ensures Shown(r) && r.draft == list[i] && r.errors == []
    ensures r.isAdding == p.isAdding && r.editingIndex == Some(i)
  {
    p.(editingIndex := Some(i), draft := list[i], errors := [])
  }

  /** `handleCancelEdit`. */
  function Cancel<T, E>(p: Panel<T, E>, blank: T): (r: Panel<T, E>)
    ensures Idle(r, blank) && !Shown(r)
  {
    Panel(false, None, blank, [])
  }

  /** `handleSave…`: a rejected draft stays, with the validator's messages,
      and no update is made; an accepted one is committed and the panel
      closes. */
  function Save<T, E>(p: Panel<T, E>, list: seq<T>, blank: T, validate: T -> ValidationResult<E>): (r: Step<T, E>)
    ensures !validate(p.draft).isValid ==>
      r.update.None? && r.panel == p.(errors := validate(p.draft).errors)
    ensures validate(p.draft).isValid ==>
      r.update == Some(Commit(list, p.editingIndex, p.draft)) && Idle(r.panel, blank)
  {
    var v := validate(p.draft);
    if !v.isValid then Step(p.(errors := v.errors), None)
    else Step(Panel(false, None, blank, []), Some(Commit(list, p.editingIndex, p.draft)))
  }

  /** `handleDelete…(i)`: the panel is untouched, so an index being edited
      may now name another entry or none. */
  function Delete<T, E>(p: Panel<T, E>, list: seq<T>, i: nat): (r: Step<T, E>)
    ensures r.panel == p
    ensures r.update.Some? && (i < |list| ==> |r.update.value| == |list| - 1)
  {
    Step(p, Some(RemoveAt(list, i)))
  }

  /** A delete drops exactly entry `i` and keeps the others in order. */
  lemma DeleteRemovesOne<T, E>(p: Panel<T, E>, list: seq<T>, i: nat)
    requires i < |list|
    ensures var u := Delete(p, list, i).update.value;
      && multiset(u) == multiset(list) - multiset{list[i]}
      && u == list[..i] + list[i + 1..]
  {
    RemoveAtMultiset(list, i);
  }

  /** A field edit through `setNew…({...draft, field})`: only the draft
      changes, and earlier messages stay on screen. */
  function SetDraft<T, E>(p: Panel<T, E>, d: T): (r: Panel<T, E>)
    ensures r.draft == d
    ensures r.isAdding == p.isAdding && r.editingIndex == p.editingIndex && r.errors == p.errors
  {
    p.(draft := d)
  }

  // ---------------------------------------------------------------------
  // Properties of a save
  // ---------------------------------------------------------------------

  /** A rejected save makes no update, keeps the draft and shows the
      validator's messages. */
  lemma SaveRejected<T, E>(p: Panel<T, E>, list: seq<T>, blank: T, validate: T -> ValidationResult<E>)
    requires !validate(p.draft).isValid
    ensures var r := Save(p, list, blank, validate);
      r.update.None? && r.panel.draft == p.draft && r.panel.errors == validate(p.draft).errors
      && Shown(r.panel) == Shown(p)
  {
  }

  /** An accepted save while editing entry `i` rewrites that entry only. */
  lemma {:induction false} SaveReplaces<T, E>(p: Panel<T, E>, list: seq<T>, blank: T, validate: T -> ValidationResult<E>, i: nat)
    requires validate(p.draft).isValid && p.editingIndex == Some(i) && i < |list|
    ensures var u := Save(p, list, blank, validate).update.value;
      && |u| == |list| && u[i] == p.draft
      && (forall j :: 0 <= j < |list| && j != i ==> u[j] == list[j])
      && u[..i] == list[..i] && u[i + 1..] == list[i + 1..]
  {
  }

  /** An accepted save while adding appends the draft. */
  lemma SaveAppends<T, E>(p: Panel<T, E>, list: seq<T>, blank: T, validate: T -> ValidationResult<E>)
    requires validate(p.draft).isValid && p.editingIndex.None?
    ensures var u := Save(p, list, blank, validate).update.value;
      |u| == |list| + 1 && u[..|list|] == list && u[|list|] == p.draft
  {
  }

  /** Whatever a save does, the committed list holds only entries the
      validator accepts, provided the old one did: the draft is checked
      on the way in, and the replaced entry, if any, leaves. */
  lemma SaveKeepsEntriesValid<T, E>(p: Panel<T, E>, list: seq<T>, blank: T, validate: T -> ValidationResult<E>)
    requires forall x :: x in list ==> validate(x).isValid
    ensures var r := Save(p, list, blank, validate);
      r.update.Some? ==> forall x :: x in r.update.value ==> validate(x).isValid
  {
    var r := Save(p, list, blank, validate);
    if r.update.Some? {
      var u := r.update.value;
      forall x | x in u ensures validate(x).isValid {
        var j :| 0 <= j < |u| && u[j] == x;
        match p.editingIndex
        case None =>
          if j < |list| { assert x == list[j]; }
        case Some(i) =>
          if i < |list| && j != i { assert x == list[j]; }
          else if i >= |list| && j < |list| { assert x == list[j]; }
      }
    }
  }

  /** The committed draft is in the list handed on. */
  lemma SaveCommitsDraft<T, E>(p: Panel<T, E>, list: seq<T>, blank: T, validate: T -> ValidationResult<E>)
    ensures var r := Save(p, list, blank, validate);
      r.update.Some? <==> validate(p.draft).isValid
    ensures var r := Save(p, list, blank, validate);
      r.update.Some? ==> p.draft in r.update.value
  {
    var r := Save(p, list, blank, validate);
    if r.update.Some? {
      match p.editingIndex
      case None =>
        assert r.update.value[|list|] == p.draft;
      case Some(i) =>
        if i < |list| { assert r.update.value[i] == p.draft; }
        else { assert r.update.value[|list|] == p.draft; }
    }
  }

  /** After an accepted save or a cancel the panel is closed and blank. */
  lemma SaveOrCancelCloses<T, E>(p: Panel<T, E>, list: seq<T>, blank: T, validate: T -> ValidationResult<E>)
    ensures var r := Save(p, list, blank, validate);
      r.update.Some? ==> Idle(r.panel, blank) && !Shown(r.panel)
    ensures Idle(Cancel(p, blank), blank)
  {
  }

  /** A key that no other entry holds keeps the keys pairwise distinct
      when the draft carrying it is committed. */
  lemma {:induction false} CommitKeepsKeysDistinct<T>(list: seq<T>, index: Option<nat>, x: T, key: T -> string)
    requires forall j, k :: 0 <= j < k < |list| ==> key(list[j]) != key(list[k])
    requires forall j :: 0 <= j < |list| && index != Some(j) ==> key(list[j]) != key(x)
    ensures var u := Commit(list, index, x);
      forall j, k :: 0 <= j < k < |u| ==> key(u[j]) != key(u[k])
  {
    var u := Commit(list, index, x);
    forall j, k | 0 <= j < k < |u| ensures key(u[j]) != key(u[k]) {
      var appended := index.None? || index.value >= |list|;
      if appended {
        assert u == list + [x];
        if k == |list| { assert u[j] == list[j]; } else { assert u[j] == list[j] && u[k] == list[k]; }
      } else {
        var i := index.value;
        assert u == list[i := x];
        if j == i { assert u[k] == list[k]; }
        else if k == i { assert u[j] == list[j]; }
        else { assert u[j] == list[j] && u[k] == list[k]; }
      }
    }
  }

  // ---------------------------------------------------------------------
  // The choices a picker still offers
  // ---------------------------------------------------------------------

  /** `entries.some((e, i) => i !== editingIndex && e.key === row[col])`:
      another entry already holds the row's identifier. The comparison is
      strict, so only a string cell can be claimed. */
  predicate Claimed(row: Row, col: string, keys: seq<string>, index: Option<nat>)
  {
    exists j :: 0 <= j < |keys| && index != Some(j) && CellIs(row, col, keys[j])
  }

  /** `availableTasks` / `availableWorkers`: the rows no other entry claims,
      in sheet order. While adding every entry counts; while editing `i`,
      every entry but `i`. */
  function Available(sheet: Sheet, col: string, keys: seq<string>, index: Option<nat>): (r: Sheet)
    ensures forall row :: row in r <==> row in sheet && !Claimed(row, col, keys, index)
    ensures |r| <= |sheet|
  {
    Filter(sheet, (row: Row) => !Claimed(row, col, keys, index))
  }

  /** The identifier of an offered row is held by no other entry. */
  lemma AvailableKeyFree(sheet: Sheet, col: string, keys: seq<string>, index: Option<nat>, row: Row, t: string)
    requires row in Available(sheet, col, keys, index) && CellIs(row, col, t)
    ensures forall j :: 0 <= j < |keys| && index != Some(j) ==> keys[j] != t
  {
    assert !Claimed(row, col, keys, index);
    forall j | 0 <= j < |keys| && index != Some(j) ensures keys[j] != t {
      assert CellIs(row, col, keys[j]) ==> Claimed(row, col, keys, index);
    }
  }
}
