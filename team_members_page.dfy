/** The Team Members page component: its state, its mount effect and its
    handlers. Every change to the list is written back whole under
    `shippy_team_members`, so the stored list always equals the shown one. */
module TeamMembersPage {
  import opened Wrappers
  import Text
  import opened TeamRecords
  import opened Storage

  class TeamMembers {
    const store: LocalStore
    var teamMembers: seq<TeamMember>
    /** The row in edit mode: at most one id at a time. */
    var editingId: Option<string>
    var showAddForm: bool
    var newMember: MemberInfo

    /** The stored list is the shown list. */
    ghost predicate Valid()
      reads this, store
    {
      TeamMembersKey in store.entries && store.entries[TeamMembersKey] == MemberList(teamMembers)
    }

    /** Mounting on the day `today` (an ISO date): the initial state, then
      the effect that loads the stored list, or installs and stores the
      sample members when the key is absent. */
    constructor Mount(store: LocalStore, today: string)
      requires TeamMembersKey in store.entries ==> store.entries[TeamMembersKey].MemberList?
      modifies store
      ensures this.store == store && Valid()
      ensures TeamMembersKey in old(store.entries) ==> teamMembers == old(store.entries)[TeamMembersKey].members
      ensures TeamMembersKey !in old(store.entries) ==> teamMembers == SampleMembers()
      ensures store.entries == old(store.entries)[TeamMembersKey := MemberList(teamMembers)]
      ensures editingId == None && !showAddForm && newMember == DefaultDraft(today)
    {
      this.store := store;
      teamMembers := [];
      editingId := None;
      showAddForm := false;
      newMember := DefaultDraft(today);
      new;
      var saved := store.GetItem(TeamMembersKey);
      if saved.Some? {
        teamMembers := saved.value.members;
      } else {
        var initial := SampleMembers();
        teamMembers := initial;
        store.SetItem(TeamMembersKey, MemberList(initial));
      }
    }

    /** `saveTeamMembers`: show the new list and store it whole. */
    method SaveTeamMembers(updated: seq<TeamMember>)
      modifies this, store
      ensures teamMembers == updated && Valid()
      ensures store.entries == old(store.entries)[TeamMembersKey := MemberList(updated)]
      ensures editingId == old(editingId) && showAddForm == old(showAddForm) && newMember == old(newMember)
    {
      teamMembers := updated;
      store.SetItem(TeamMembersKey, MemberList(updated));
    }

    /** `handleAddMember`, with `newId` standing for `Date.now().toString()`
      and `today` for the current ISO date: a draft whose trimmed name and
      trimmed email are both non-empty is appended as the last member,
      stored, and the form is reset and hidden; otherwise nothing changes. */
    method HandleAddMember(newId: string, today: string)
      requires Valid()
      modifies this, store
      ensures Valid() && editingId == old(editingId)
      ensures if Text.Trim(old(newMember).name) != "" && Text.Trim(old(newMember).email) != "" then
        && teamMembers == old(teamMembers) + [TeamMember(newId, old(newMember))]
        && newMember == DefaultDraft(today) && !showAddForm
        && store.entries == old(store.entries)[TeamMembersKey := MemberList(teamMembers)]
      else
        && teamMembers == old(teamMembers) && newMember == old(newMember) && showAddForm == old(showAddForm)
        && store.entries == old(store.entries)
    {
      var nameOk := Text.Trim(newMember.name) != "";
      var emailOk := Text.Trim(newMember.email) != "";
      if nameOk && emailOk {
        var member := TeamMember(newId, newMember);
        SaveTeamMembers(teamMembers + [member]);
        newMember := DefaultDraft(today);
        showAddForm := false;
      }
    }

    /** `handleEditMember`: set the field of the members with that id and
      store the list. */
    method HandleEditMember(id: string, f: MemberField, v: string)
      requires Valid()
      modifies this, store
      ensures Valid()
      ensures teamMembers == EditMembers(old(teamMembers), id, f, v)
      ensures store.entries == old(store.entries)[TeamMembersKey := MemberList(teamMembers)]
      ensures editingId == old(editingId) && showAddForm == old(showAddForm) && newMember == old(newMember)
    {
      SaveTeamMembers(EditMembers(teamMembers, id, f, v));
    }

    /** `handleDeleteMember`, the delete button of a row: drop the members
      with that id and store the list. */
    method HandleDeleteMember(id: string)
      requires Valid()
      modifies this, store
      ensures Valid()
      ensures teamMembers == DeleteMembers(old(teamMembers), id)
      ensures store.entries == old(store.entries)[TeamMembersKey := MemberList(teamMembers)]
      ensures editingId == old(editingId) && showAddForm == old(showAddForm) && newMember == old(newMember)
    {
      SaveTeamMembers(DeleteMembers(teamMembers, id));
    }

    /** The edit button of a row: that id, and only that id, is in edit mode;
      a row edited before leaves edit mode. */
    method StartEditing(id: string)
      requires Valid()
      modifies this
      ensures Valid() && editingId == Some(id)
      ensures teamMembers == old(teamMembers) && showAddForm == old(showAddForm) && newMember == old(newMember)
    {
      editingId := Some(id);
    }

    /** The save and the cancel button of the row in edit mode, which do the
      same: leave edit mode, reverting nothing. */
    method StopEditing()
      requires Valid()
      modifies this
      ensures Valid() && editingId == None
      ensures teamMembers == old(teamMembers) && showAddForm == old(showAddForm) && newMember == old(newMember)
    {
      editingId := None;
    }

    /** "Add Member": show or hide the add form. */
    method ToggleAddForm()
      requires Valid()
      modifies this
      ensures Valid() && showAddForm == !old(showAddForm)
      ensures teamMembers == old(teamMembers) && editingId == old(editingId) && newMember == old(newMember)
    {
      showAddForm := !showAddForm;
    }

    /** The cancel button of the add form: hide it, keeping the draft. */
    method CloseAddForm()
      requires Valid()
      modifies this
      ensures Valid() && !showAddForm
      ensures teamMembers == old(teamMembers) && editingId == old(editingId) && newMember == old(newMember)
    {
      showAddForm := false;
    }

    /** An input of the add form: change one field of the draft. */
    method EditDraft(f: MemberField, v: string)
      requires Valid()
      modifies this
      ensures Valid() && newMember == Edited(old(newMember), f, v)
      ensures teamMembers == old(teamMembers) && editingId == old(editingId) && showAddForm == old(showAddForm)
    {
      newMember := Edited(newMember, f, v);
    }

    /** The three summary cards: Total, Admins and Employees. */
    method RoleSummary() returns (total: nat, admins: nat, employees: nat)
      ensures total == |teamMembers|
      ensures admins == RoleCount(teamMembers, "Admin") && employees == RoleCount(teamMembers, "Employee")
      ensures admins + employees <= total
    {
      total := |teamMembers|;
      admins := RoleCount(teamMembers, "Admin");
      employees := RoleCount(teamMembers, "Employee");
      RoleCountsWithinTotal(teamMembers);
    }
  }
}
