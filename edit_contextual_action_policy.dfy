/**
 * Which actions a context menu offers while an object is being edited.
 * When the navigated object is the edit root, an action is refused if its
 * key is on the edit-mode blacklist (for a selected object inside the
 * edit) or on the non-edit-context blacklist (for any other object);
 * otherwise every action is allowed.
 */
module EditContextualActionPolicy {
  import opened Base

  /** An action's metadata; `key` is None when the metadata has no key. */
  datatype Metadata = Metadata(key: Option<string>)

  /** An action; `metadata` is None when the action has no `getMetadata`. */
  datatype Action = Action(metadata: Option<Metadata>)

  /** The key the policy looks up: absent when there is no metadata or no key in it. */
  function ActionKey(action: Action): Option<string> {
    if action.metadata.Some? then action.metadata.value.key else None
  }

  /** `blacklist.indexOf(key) === -1`; an absent key matches no entry. */
  function NotListed(blacklist: seq<string>, key: Option<string>): bool {
    key.None? || IndexOf(blacklist, key.value) == -1
  }

  /** The key is present and on the list. */
  predicate Blacklisted(blacklist: seq<string>, key: Option<string>) {
    key.Some? && key.value in blacklist
  }

  function Allow(
    navigated: ObjectView, selected: ObjectView, action: Action,
    editModeBlacklist: seq<string>, nonEditContextBlacklist: seq<string>): (r: bool)
    ensures !IsEditRoot(navigated) ==> r
    ensures IsEditRoot(navigated) && InEditContext(selected) ==>
      (r <==> !Blacklisted(editModeBlacklist, ActionKey(action)))
    ensures IsEditRoot(navigated) && !InEditContext(selected) ==>
      (r <==> !Blacklisted(nonEditContextBlacklist, ActionKey(action)))
  {
    if navigated.editor.Some? && navigated.editor.value.isEditContextRoot then
      if selected.editor.Some? && selected.editor.value.inEditContext then
        NotListed(editModeBlacklist, ActionKey(action))
      else
        NotListed(nonEditContextBlacklist, ActionKey(action))
    else
      true
  }

  /** An action with no key is never refused, whatever the lists hold. */
  lemma KeylessActionAllowed(
    navigated: ObjectView, selected: ObjectView, action: Action,
    editModeBlacklist: seq<string>, nonEditContextBlacklist: seq<string>)
    requires ActionKey(action).None?
    ensures Allow(navigated, selected, action, editModeBlacklist, nonEditContextBlacklist)
  {
  }

  /** An action refused by the policy has a key, and that key is on the blacklist that applied. */
  lemma RefusalNamesBlacklist(
    navigated: ObjectView, selected: ObjectView, action: Action,
    editModeBlacklist: seq<string>, nonEditContextBlacklist: seq<string>)
    requires !Allow(navigated, selected, action, editModeBlacklist, nonEditContextBlacklist)
    ensures IsEditRoot(navigated) && ActionKey(action).Some?
    ensures ActionKey(action).value in (if InEditContext(selected) then editModeBlacklist else nonEditContextBlacklist)
  {
  }
}
