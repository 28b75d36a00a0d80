/**
 * The Save As action: save a never-persisted object being edited by
 * cloning it into a location chosen in a dialog, refreshing the originals
 * that took part in the clone, and committing the edit.  The steps run
 * strictly one after the other, each only if the previous one succeeded;
 * any failure hides the progress dialog and makes the save yield `false`.
 *
 * The object service, the dialog service, the creation wizard and the
 * copy service are collaborators: what each of their steps settles to is
 * given in `SaveInputs`.
 */
module SaveAsAction {
  import opened Base
  import opened EditorCapability
  import CancelAction

  /** Applies to a present object with an editor capability that is the edit root and was never persisted. */
  function AppliesTo(domainObject: Option<ObjectView>): (r: bool)
    ensures r <==> domainObject.Some? && IsEditRoot(domainObject.value) && domainObject.value.persisted.None?
  {
    domainObject.Some?
    && domainObject.value.editor.Some?
    && domainObject.value.editor.value.isEditContextRoot
    && domainObject.value.persisted.None?
  }

  /** Wherever Save As applies, Cancel applies too. */
  lemma AppliesOnlyWhereCancelApplies(domainObject: Option<ObjectView>)
    ensures AppliesTo(domainObject) ==> CancelAction.AppliesTo(domainObject)
  {
  }

  /**
   * An object the copy service offers to the clone filter.  `isOriginal`
   * is the answer of its location capability's `isOriginal()`, None when
   * it has no location capability.
   */
  datatype Candidate = Candidate(id: string, isOriginal: Option<bool>)

  /** The filter lets a candidate be cloned: it is the edited object itself, or an original. */
  predicate MayClone(editedId: string, c: Candidate) {
    c.id == editedId || c.isOriginal == Some(true)
  }

  /** The candidates of `offered` that the filter lets through, in the order they were offered. */
  function Allowed(editedId: string, offered: seq<Candidate>): (r: seq<Candidate>)
    ensures forall c :: c in r <==> c in offered && MayClone(editedId, c)
    ensures |r| <= |offered|
    ensures forall i :: 0 <= i < |r| ==> MayClone(editedId, r[i])
  {
    if offered == [] then []
    else
      var init := offered[..|offered| - 1];
      var last := offered[|offered| - 1];
      assert offered == init + [last];
      var r := Allowed(editedId, init);
      if MayClone(editedId, last) then r + [last] else r
  }

  /** The ids of a list of candidates. */
  function Ids(cs: seq<Candidate>): (r: seq<string>)
    ensures |r| == |cs| && forall i :: 0 <= i < |cs| ==> r[i] == cs[i].id
  {
    if cs == [] then [] else [cs[0].id] + Ids(cs[1..])
  }

  /**
   * The `allowClone` closure together with the `toUndirty` array it
   * fills.  `offered` records every candidate it was asked about.
   */
  class CloneFilter {
    const editedId: string
    var toUndirty: seq<Candidate>
    ghost var offered: seq<Candidate>

    ghost predicate Valid()
      reads this
    {
      toUndirty == Allowed(editedId, offered)
    }

    constructor (editedId: string)
      ensures Valid() && this.editedId == editedId && offered == [] && toUndirty == []
    {
      this.editedId := editedId;
      toUndirty := [];
      offered := [];
    }

    /**
     * Allow the edited object itself (its location capability is then
     * not consulted) or an original; remember every allowed candidate.
     */
    method AllowClone(c: Candidate) returns (allowed: bool)
      requires Valid()
      requires c.id == editedId || c.isOriginal.Some?
      modifies this
      ensures Valid()
      ensures allowed <==> MayClone(editedId, c)
      ensures offered == old(offered) + [c]
      ensures toUndirty == old(toUndirty) + (if allowed then [c] else [])
    {
      allowed := c.id == editedId || c.isOriginal.value;
      if allowed {
        toUndirty := toUndirty + [c];
      }
      offered := offered + [c];
    }
  }

  /** The steps of a save, in the order they are chained. */
  datatype Step =
    | FetchParent | WizardInput | ShowDialog | FetchNewParent
    | CloneIntoParent | UndirtyOriginals | CommitEditing | HideDialog

  const Chain: seq<Step> :=
    [FetchParent, WizardInput, ShowDialog, FetchNewParent, CloneIntoParent, UndirtyOriginals, CommitEditing, HideDialog]

  datatype DialogEvent = Shown | Hidden

  /**
   * What the collaborators of one save settle to: the lookup of the edited
   * object's parent; the wizard's user input (the id of the location it
   * writes into the object); the lookup of that location; the candidates
   * the copy service offers to the clone filter and its result (the
   * clone's id); the ids whose refresh fails; whether the commit succeeds.
   */
  datatype SaveInputs = SaveInputs(
    parent: Outcome<string>,
    wizard: Outcome<string>,
    newParent: Outcome<string>,
    offered: seq<Candidate>,
    clone: Outcome<string>,
    refreshFailures: set<string>,
    commitSucceeds: bool
  )

  /** Every original allowed into the clone refreshes successfully. */
  predicate RefreshesSucceed(editedId: string, inputs: SaveInputs) {
    forall c :: c in Allowed(editedId, inputs.offered) ==> c.id !in inputs.refreshFailures
  }

  predicate StepSucceeds(editedId: string, inputs: SaveInputs, s: Step) {
    match s
    case FetchParent => inputs.parent.Resolved?
    case WizardInput => inputs.wizard.Resolved?
    case ShowDialog => true
    case FetchNewParent => inputs.newParent.Resolved?
    case CloneIntoParent => inputs.clone.Resolved?
    case UndirtyOriginals => RefreshesSucceed(editedId, inputs)
    case CommitEditing => inputs.commitSucceeds
    case HideDialog => true
  }

  /**
   * How many steps of the chain run: every step before the last one run
   * succeeded, and the last one run failed unless the whole chain ran.
   */
  function StepsRun(editedId: string, inputs: SaveInputs): (r: nat)
    ensures 1 <= r <= |Chain|
  {
    if inputs.parent.Rejected? then 1
    else if inputs.wizard.Rejected? then 2
    else if inputs.newParent.Rejected? then 4
    else if inputs.clone.Rejected? then 5
    else if !RefreshesSucceed(editedId, inputs) then 6
    else if !inputs.commitSucceeds then 7
    else 8
  }

  /**
   * The chain is strictly sequential: every step before the last one run
   * succeeded, the last one run failed unless the whole chain ran, and the
   * whole chain runs exactly when every step succeeds.
   */
  lemma StepsRunSequential(editedId: string, inputs: SaveInputs)
    ensures var n := StepsRun(editedId, inputs);
      && 1 <= n <= |Chain|
      && (forall i :: 0 <= i < n - 1 ==> StepSucceeds(editedId, inputs, Chain[i]))
      && (n < |Chain| ==> !StepSucceeds(editedId, inputs, Chain[n - 1]))
      && (n == |Chain| <==> forall i :: 0 <= i < |Chain| ==> StepSucceeds(editedId, inputs, Chain[i]))
  {
  }

  /** The edit is committed only after the clone succeeded and every original was refreshed successfully. */
  lemma CommitFollowsCloneAndUndirty(editedId: string, inputs: SaveInputs)
    requires StepsRun(editedId, inputs) >= 7
    ensures inputs.clone.Resolved? && RefreshesSucceed(editedId, inputs)
  {
    StepsRunSequential(editedId, inputs);
    assert StepSucceeds(editedId, inputs, Chain[4]);
    assert StepSucceeds(editedId, inputs, Chain[5]);
  }

  /** The slices of the chain that the phases of a save run. */
  lemma ChainSlices()
    ensures Chain[..1] == [FetchParent] && Chain[..2] == [FetchParent, WizardInput]
    ensures Chain[..4] == [FetchParent, WizardInput, ShowDialog, FetchNewParent]
    ensures Chain[4..5] == [CloneIntoParent] && Chain[4..6] == [CloneIntoParent, UndirtyOriginals]
    ensures Chain[6..7] == [CommitEditing] && Chain[6..8] == [CommitEditing, HideDialog]
  {
  }

  /** A prefix of a sequence followed by the next slice is the longer prefix. */
  lemma PrefixSplit<T>(s: seq<T>, i: int, j: int)
    requires 0 <= i <= j <= |s|
    ensures s[..i] + s[i..j] == s[..j]
  {
  }

  /** Two adjacent slices of a sequence make up the slice that spans both. */
  lemma SliceSplit<T>(s: seq<T>, i: int, j: int, k: int)
    requires 0 <= i <= j <= k <= |s|
    ensures s[i..j] + s[j..k] == s[i..k]
  {
  }

  class SaveAsAction {
    const editedId: string
    const editor: Editor
    var dialog: seq<DialogEvent>
    var steps: seq<Step>
    /** Ids of the objects whose persistence capability was asked to refresh. */
    var refreshed: seq<string>

    constructor (editedId: string, editor: Editor)
      ensures this.editedId == editedId && this.editor == editor
      ensures dialog == [] && steps == [] && refreshed == []
    {
      this.editedId := editedId;
      this.editor := editor;
      dialog, steps, refreshed := [], [], [];
    }

    /** The copy service's traversal: it asks the filter about each candidate, in order. */
    static method OfferAll(filter: CloneFilter, offered: seq<Candidate>)
      requires filter.Valid() && filter.offered == [] && filter.toUndirty == []
      requires forall c :: c in offered ==> c.id == filter.editedId || c.isOriginal.Some?
      modifies filter
      ensures filter.Valid() && filter.offered == offered
      ensures filter.toUndirty == Allowed(filter.editedId, offered)
    {
      for i := 0 to |offered|
        invariant filter.Valid() && filter.offered == offered[..i]
      {
        var _ := filter.AllowClone(offered[i]);
        assert offered[..i + 1] == offered[..i] + [offered[i]];
      }
      assert offered[..|offered|] == offered;
    }

    /**
     * The first four steps: find the parent, run the creation wizard, show
     * the progress dialog, find the location the wizard chose.  `ok` says
     * whether the chain goes on.
     */
    method Locate(inputs: SaveInputs) returns (ok: bool)
      modifies this
      ensures ok <==> StepsRun(editedId, inputs) > 4
      ensures ok ==> steps == old(steps) + Chain[..4]
      ensures !ok ==> steps == old(steps) + Chain[..StepsRun(editedId, inputs)]
      ensures dialog == old(dialog) + (if StepsRun(editedId, inputs) >= 3 then [Shown] else [])
      ensures refreshed == old(refreshed)
    {
      ChainSlices();
      ok := false;
      steps := steps + [FetchParent];
      if inputs.parent.Rejected? {
        return;
      }
      steps := steps + [WizardInput];
      if inputs.wizard.Rejected? {
        return;
      }
      steps := steps + [ShowDialog];
      dialog := dialog + [Shown];
      steps := steps + [FetchNewParent];
      ok := inputs.newParent.Resolved?;
    }

    /**
     * Clone into the chosen location through the copy service, then
     * refresh every object the filter let through.  `ok` says whether the
     * chain goes on.
     */
    method CloneAndUndirty(inputs: SaveInputs) returns (ok: bool)
      requires StepsRun(editedId, inputs) > 4
      requires forall c :: c in inputs.offered ==> c.id == editedId || c.isOriginal.Some?
      modifies this
      ensures ok <==> StepsRun(editedId, inputs) > 6
      ensures ok ==> steps == old(steps) + Chain[4..6]
      ensures !ok ==> steps == old(steps) + Chain[4..StepsRun(editedId, inputs)]
      ensures dialog == old(dialog)
      ensures refreshed == old(refreshed) +
        (if StepsRun(editedId, inputs) >= 6 then Ids(Allowed(editedId, inputs.offered)) else [])
    {
      ChainSlices();
      var filter := new CloneFilter(editedId);
      steps := steps + [CloneIntoParent];
      OfferAll(filter, inputs.offered);
      if inputs.clone.Rejected? {
        assert StepsRun(editedId, inputs) == 5;
        return false;
      }
      steps := steps + [UndirtyOriginals];
      refreshed := refreshed + Ids(filter.toUndirty);
      ok := RefreshesSucceed(editedId, inputs);
      assert StepsRun(editedId, inputs) >= 6;
    }

    /**
     * Commit the edit through the editor capability, then hide the
     * dialog.  The result is the clone's id, or None when the commit
     * fails.
     */
    method Commit(inputs: SaveInputs) returns (result: Option<string>)
      requires StepsRun(editedId, inputs) > 6
      modifies this, editor.transactions, editor.status
      ensures steps == old(steps) + Chain[6..StepsRun(editedId, inputs)]
      ensures result.Some? <==> StepsRun(editedId, inputs) == |Chain|
      ensures result.Some? ==> inputs.clone.Resolved? && result.value == inputs.clone.value
      ensures dialog == old(dialog) && refreshed == old(refreshed)
      ensures editor.transactions.calls == old(editor.transactions.calls) + [CommitCall]
      ensures !editor.transactions.active && editor.transactions.pending == []
      ensures !editor.status.editing
    {
      ChainSlices();
      steps := steps + [CommitEditing];
      var ok := editor.Save(inputs.commitSucceeds);
      if ok {
        steps := steps + [HideDialog];
        result := Some(inputs.clone.value);
      } else {
        result := None;
      }
    }

    /**
     * Everything after the location is found: clone, refresh, commit and
     * hide.  The result is the clone's id, or None when a step fails.
     */
    method Finish(inputs: SaveInputs) returns (result: Option<string>)
      requires StepsRun(editedId, inputs) > 4
      requires forall c :: c in inputs.offered ==> c.id == editedId || c.isOriginal.Some?
      modifies this, editor.transactions, editor.status
      ensures steps == old(steps) + Chain[4..StepsRun(editedId, inputs)]
      ensures result.Some? <==> StepsRun(editedId, inputs) == |Chain|
      ensures result.Some? ==> inputs.clone.Resolved? && result.value == inputs.clone.value
      ensures dialog == old(dialog)
      ensures refreshed == old(refreshed) +
        (if StepsRun(editedId, inputs) >= 6 then Ids(Allowed(editedId, inputs.offered)) else [])
      ensures editor.transactions.calls == old(editor.transactions.calls) +
        (if StepsRun(editedId, inputs) >= 7 then [CommitCall] else [])
      ensures StepsRun(editedId, inputs) >= 7 ==> !editor.status.editing
      ensures StepsRun(editedId, inputs) < 7 ==> editor.status.editing == old(editor.status.editing)
      ensures StepsRun(editedId, inputs) >= 7 ==> !editor.transactions.active && editor.transactions.pending == []
      ensures StepsRun(editedId, inputs) < 7 ==>
        editor.transactions.active == old(editor.transactions.active) &&
        editor.transactions.pending == old(editor.transactions.pending)
    {
      var ok := CloneAndUndirty(inputs);
      if ok {
        result := Commit(inputs);
        SliceSplit(Chain, 4, 6, StepsRun(editedId, inputs));
        assert steps == old(steps) + (Chain[4..6] + Chain[6..StepsRun(editedId, inputs)]);
      } else {
        result := None;
      }
    }

    /**
     * The step chain; a failure anywhere skips the remaining steps and
     * hides the dialog (`onFailure`).  The result is the clone's id, or
     * None for `false`.
     */
    method Save(inputs: SaveInputs) returns (result: Option<string>)
      requires forall c :: c in inputs.offered ==> c.id == editedId || c.isOriginal.Some?
      modifies this, editor.transactions, editor.status
      ensures steps == old(steps) + Chain[..StepsRun(editedId, inputs)]
      ensures result.Some? <==> StepsRun(editedId, inputs) == |Chain|
      ensures result.Some? ==> inputs.clone.Resolved? && result.value == inputs.clone.value
      ensures dialog == old(dialog) + (if StepsRun(editedId, inputs) >= 3 then [Shown, Hidden] else [Hidden])
      ensures refreshed == old(refreshed) +
        (if StepsRun(editedId, inputs) >= 6 then Ids(Allowed(editedId, inputs.offered)) else [])
      ensures editor.transactions.calls == old(editor.transactions.calls) +
        (if StepsRun(editedId, inputs) >= 7 then [CommitCall] else [])
      ensures StepsRun(editedId, inputs) >= 7 ==> !editor.status.editing
      ensures StepsRun(editedId, inputs) < 7 ==> editor.status.editing == old(editor.status.editing)
      ensures StepsRun(editedId, inputs) >= 7 ==> !editor.transactions.active && editor.transactions.pending == []
      ensures StepsRun(editedId, inputs) < 7 ==>
        editor.transactions.active == old(editor.transactions.active) &&
        editor.transactions.pending == old(editor.transactions.pending)
    {
      var ok := Locate(inputs);
      if ok {
        result := Finish(inputs);
        PrefixSplit(Chain, 4, StepsRun(editedId, inputs));
        assert steps == old(steps) + (Chain[..4] + Chain[4..StepsRun(editedId, inputs)]);
      } else {
        result := None;
      }
      dialog := dialog + [Hidden];
    }

    /** Save, then navigate to the result when it is an object; yield the same result. */
    method Perform(inputs: SaveInputs) returns (result: Option<string>, navigateTo: Option<string>)
      requires forall c :: c in inputs.offered ==> c.id == editedId || c.isOriginal.Some?
      modifies this, editor.transactions, editor.status
      ensures navigateTo == result
      ensures steps == old(steps) + Chain[..StepsRun(editedId, inputs)]
      ensures result.Some? <==> StepsRun(editedId, inputs) == |Chain|
      ensures result.Some? ==> inputs.clone.Resolved? && result.value == inputs.clone.value
      ensures dialog == old(dialog) + (if StepsRun(editedId, inputs) >= 3 then [Shown, Hidden] else [Hidden])
      ensures refreshed == old(refreshed) +
        (if StepsRun(editedId, inputs) >= 6 then Ids(Allowed(editedId, inputs.offered)) else [])
      ensures editor.transactions.calls == old(editor.transactions.calls) +
        (if StepsRun(editedId, inputs) >= 7 then [CommitCall] else [])
      ensures StepsRun(editedId, inputs) >= 7 ==> !editor.status.editing
      ensures StepsRun(editedId, inputs) < 7 ==> editor.status.editing == old(editor.status.editing)
      ensures StepsRun(editedId, inputs) >= 7 ==> !editor.transactions.active && editor.transactions.pending == []
      ensures StepsRun(editedId, inputs) < 7 ==>
        editor.transactions.active == old(editor.transactions.active) &&
        editor.transactions.pending == old(editor.transactions.pending)
    {
      result := Save(inputs);
      navigateTo := result;
    }
  }
}
