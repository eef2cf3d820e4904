/**
 * Editing the list of restriction groups (ui/screens/GroupManagementScreen.kt).
 * The list transforms of the screen's callbacks are functions on
 * `seq<AppGroup>`; the screen itself is a class whose `groups` field is the
 * screen state, written through to the store after every change.
 */
module GroupManagement {
  import opened Options
  import opened Text
  import opened Preferences

  const DefaultStartTime: string := "09:00"
  const DefaultEndTime: string := "17:00"

  /** The enable switch: `isEnabled` is set on every group named `name`; nothing else changes. */
  function SetEnabled(groups: seq<AppGroup>, name: string, enabled: bool): (r: seq<AppGroup>)
    ensures |r| == |groups|
    ensures forall i :: 0 <= i < |groups| ==>
              r[i] == if groups[i].name == name then groups[i].(isEnabled := enabled) else groups[i]
  {
    if groups == [] then []
    else
      [if groups[0].name == name then groups[0].(isEnabled := enabled) else groups[0]] +
      SetEnabled(groups[1..], name, enabled)
  }

  /** The delete button: `groups.filter { it != group }`. */
  function Without(groups: seq<AppGroup>, group: AppGroup): (r: seq<AppGroup>)
    ensures forall g :: g in r <==> g in groups && g != group
    ensures |r| <= |groups|
  {
    if groups == [] then []
    else (if groups[0] == group then [] else [groups[0]]) + Without(groups[1..], group)
  }

  /** Deleting keeps the survivors in their relative order: the filter distributes over concatenation. */
  lemma {:induction false} WithoutConcat(a: seq<AppGroup>, b: seq<AppGroup>, group: AppGroup)
    ensures Without(a + b, group) == Without(a, group) + Without(b, group)
  {
    if a != [] {
      assert (a + b)[0] == a[0] && (a + b)[1..] == a[1..] + b;
      WithoutConcat(a[1..], b, group);
      var head := if a[0] == group then [] else [a[0]];
      assert Without(a + b, group) == head + (Without(a[1..], group) + Without(b, group));
      assert Without(a, group) == head + Without(a[1..], group);
    } else {
      assert a + b == b;
    }
  }

  /** A list without the deleted group is left as it was. */
  lemma {:induction false} WithoutAbsent(groups: seq<AppGroup>, group: AppGroup)
    requires group !in groups
    ensures Without(groups, group) == groups
  {
    if groups != [] {
      assert groups[1..] + [] == groups[1..];
      assert group !in groups[1..];
      WithoutAbsent(groups[1..], group);
      assert [groups[0]] + groups[1..] == groups;
    }
  }

  /** The edit branch of Save: every group named `name` is replaced by `updated`. */
  function ReplaceNamed(groups: seq<AppGroup>, name: string, updated: AppGroup): (r: seq<AppGroup>)
    ensures |r| == |groups|
    ensures forall i :: 0 <= i < |groups| ==> r[i] == if groups[i].name == name then updated else groups[i]
  {
    if groups == [] then []
    else [if groups[0].name == name then updated else groups[0]] + ReplaceNamed(groups[1..], name, updated)
  }

  /** The dialog's fields: the group name, the selected packages and the two time labels. */
  datatype Draft = Draft(name: string, selectedApps: set<string>, startTime: string, endTime: string)

  /** The dialog's initial fields: the edited group's, or an empty name and 09:00 to 17:00. */
  function InitialDraft(editing: Option<AppGroup>): Draft {
    match editing
    case None => Draft("", {}, DefaultStartTime, DefaultEndTime)
    case Some(g) => Draft(g.name, g.packageNames, g.startTime, g.endTime)
  }

  /**
   * The Save button's effect on the list. An empty name changes nothing; a
   * new group is appended enabled, even when its name is already taken; an
   * edit replaces the groups with the edited group's name and keeps the
   * edited group's `isEnabled`.
   */
  function Saved(groups: seq<AppGroup>, editing: Option<AppGroup>, d: Draft): (r: seq<AppGroup>)
    ensures d.name == "" ==> r == groups
    ensures d.name != "" && editing.None? ==>
              r == groups + [AppGroup(d.name, d.selectedApps, d.startTime, d.endTime, true)]
    ensures d.name != "" && editing.Some? ==> |r| == |groups|
    ensures d.name != "" && editing.Some? ==> forall i :: 0 <= i < |groups| ==>
              r[i] == if groups[i].name == editing.value.name
                      then AppGroup(d.name, d.selectedApps, d.startTime, d.endTime, editing.value.isEnabled)
                      else groups[i]
  {
    if d.name == "" then groups
    else
      var newGroup := AppGroup(d.name, d.selectedApps, d.startTime, d.endTime,
                               if editing.Some? then editing.value.isEnabled else true);
      if editing.None? then groups + [newGroup]
      else ReplaceNamed(groups, editing.value.name, newGroup)
  }

  /** Saving a fresh dialog under a non-empty name appends a 09:00-17:00 group with no apps. */
  lemma NewGroupDefaults(groups: seq<AppGroup>, name: string)
    requires name != ""
    ensures Saved(groups, None, InitialDraft(None).(name := name))
              == groups + [AppGroup(name, {}, "09:00", "17:00", true)]
  {
  }

  /** Saving an edit dialog left untouched changes nothing, as long as the groups sharing its name are that group. */
  lemma UntouchedEditIsNoOp(groups: seq<AppGroup>, g: AppGroup)
    requires forall i :: 0 <= i < |groups| && groups[i].name == g.name ==> groups[i] == g
    ensures Saved(groups, Some(g), InitialDraft(Some(g))) == groups
  {
    var r := Saved(groups, Some(g), InitialDraft(Some(g)));
    if g.name != "" {
      assert forall i :: 0 <= i < |groups| ==> r[i] == groups[i];
    }
  }

  /** TimePickerButton's label, `"%02d:%02d".format(h, m)`. */
  function TimeLabel(h: int, m: int): (r: string)
    ensures |r| >= 5 && |Pad2(h)| < |r| && r[|Pad2(h)|] == ':'
  {
    Pad2(h) + ":" + Pad2(m)
  }

  /** For an hour and minute from the picker the label is "HH:mm": two digits, a colon, two digits that read back as h and m. */
  lemma TimeLabelShape(h: int, m: int)
    requires 0 <= h < 24 && 0 <= m < 60
    ensures var r := TimeLabel(h, m);
      |r| == 5 && r[2] == ':' &&
      IsDigit(r[0]) && IsDigit(r[1]) && IsDigit(r[3]) && IsDigit(r[4]) &&
      10 * DigitValue(r[0]) + DigitValue(r[1]) == h &&
      10 * DigitValue(r[3]) + DigitValue(r[4]) == m
  {
    Pad2Digits(h);
    Pad2Digits(m);
    var r := TimeLabel(h, m);
    assert r[0] == Pad2(h)[0] && r[1] == Pad2(h)[1];
    assert r[3] == Pad2(m)[0] && r[4] == Pad2(m)[1];
  }

  class GroupManagementScreen {
    const prefs: PreferenceManager
    var groups: seq<AppGroup>
    var showAddDialog: bool
    var editingGroup: Option<AppGroup>
    var draft: Draft

    /** The screen opens on the stored groups with no dialog. */
    constructor (prefs: PreferenceManager)
      ensures this.prefs == prefs && groups == prefs.appGroups
      ensures !showAddDialog && editingGroup == None
    {
      this.prefs := prefs;
      groups := prefs.appGroups;
      showAddDialog := false;
      editingGroup := None;
      draft := InitialDraft(None);
    }

    /** The screen's list and the store agree. */
    ghost predicate Synced()
      reads this, prefs
    {
      groups == prefs.appGroups
    }

    method OnEnabledChange(group: AppGroup, isEnabled: bool)
      modifies this`groups, prefs`appGroups
      ensures groups == SetEnabled(old(groups), group.name, isEnabled)
      ensures Synced()
    {
      var updatedGroups := SetEnabled(groups, group.name, isEnabled);
      groups := updatedGroups;
      prefs.appGroups := updatedGroups;
    }

    method OnDelete(group: AppGroup)
      modifies this`groups, prefs`appGroups
      ensures groups == Without(old(groups), group)
      ensures Synced()
    {
      groups := Without(groups, group);
      prefs.appGroups := groups;
    }

    /** The floating add button opens an empty dialog. */
    method OnAddClick()
      modifies this`editingGroup, this`showAddDialog, this`draft
      ensures editingGroup == None && showAddDialog
      ensures draft == Draft("", {}, DefaultStartTime, DefaultEndTime)
    {
      editingGroup := None;
      showAddDialog := true;
      draft := InitialDraft(editingGroup);
    }

    /** The edit button opens the dialog on `group`'s fields. */
    method OnEditClick(group: AppGroup)
      modifies this`editingGroup, this`showAddDialog, this`draft
      ensures editingGroup == Some(group) && showAddDialog
      ensures draft == Draft(group.name, group.packageNames, group.startTime, group.endTime)
    {
      editingGroup := Some(group);
      showAddDialog := true;
      draft := InitialDraft(editingGroup);
    }

    /** Typing in the name field, which is enabled only when creating. */
    method OnNameChange(name: string)
      requires editingGroup.None?
      modifies this`draft
      ensures draft == old(draft).(name := name)
    {
      draft := draft.(name := name);
    }

    /** Picking a start time of h:m. */
    method OnStartTimePicked(h: int, m: int)
      modifies this`draft
      ensures draft == old(draft).(startTime := TimeLabel(h, m))
    {
      draft := draft.(startTime := TimeLabel(h, m));
    }

    /** Picking an end time of h:m. */
    method OnEndTimePicked(h: int, m: int)
      modifies this`draft
      ensures draft == old(draft).(endTime := TimeLabel(h, m))
    {
      draft := draft.(endTime := TimeLabel(h, m));
    }

    /** Clicking an app row flips its selection. */
    method OnAppClick(p: string)
      modifies this`draft
      ensures draft == old(draft).(selectedApps := Toggled(old(draft.selectedApps), p))
    {
      var selected := if p in draft.selectedApps then draft.selectedApps - {p} else draft.selectedApps + {p};
      draft := draft.(selectedApps := selected);
    }

    /** The Save button: with an empty name nothing happens and the dialog stays open. */
    method OnConfirm()
      modifies this`groups, this`showAddDialog, this`editingGroup, prefs`appGroups
      ensures draft.name == "" ==> groups == old(groups) && showAddDialog == old(showAddDialog)
      ensures draft.name == "" ==> editingGroup == old(editingGroup) && prefs.appGroups == old(prefs.appGroups)
      ensures draft.name != "" ==> groups == Saved(old(groups), old(editingGroup), draft) && Synced()
      ensures draft.name != "" ==> !showAddDialog && editingGroup == None
    {
      if draft.name != "" {
        groups := Saved(groups, editingGroup, draft);
        prefs.appGroups := groups;
        showAddDialog := false;
        editingGroup := None;
      }
    }

    /** Dismissing the dialog (back or outside tap) only closes it; the edited group is kept. */
    method OnDismissRequest()
      modifies this`showAddDialog
      ensures !showAddDialog
    {
      showAddDialog := false;
    }

    /** The Cancel button closes the dialog and forgets the edited group; no group changes. */
    method OnCancel()
      modifies this`showAddDialog, this`editingGroup
      ensures !showAddDialog && editingGroup == None
    {
      showAddDialog := false;
      editingGroup := None;
    }
  }
}
