/** Team-member records and the pure parts of the Team Members page: the
    sample team, the draft, the `map`/`filter` edits by id, the role badge
    colours and the role counts of the summary cards. */
module TeamRecords {
  import opened RecordLists

  /** Every member field except the id: the shape of the add-form draft
      `newMember`. `joinDate` is the `YYYY-MM-DD` text of a date input. */
  datatype MemberInfo = MemberInfo(
    name: string,
    email: string,
    phone: string,
    role: string,
    joinDate: string)

  /** A stored member: `{ id, ...info }`. */
  datatype TeamMember = TeamMember(id: string, info: MemberInfo)

  function IdOf(m: TeamMember): string {
    m.id
  }

  ghost predicate UniqueIds(ms: seq<TeamMember>) {
    UniqueKeys(ms, IdOf)
  }

  function IdSet(ms: seq<TeamMember>): set<string> {
    set m | m in ms :: m.id
  }

  const Roles := ["Admin", "Manager", "Employee", "Intern", "Contractor"]

  /** The draft the add form starts from and is reset to after a successful
      add; `today` is the ISO date of the moment the reset happens. */
  function DefaultDraft(today: string): (d: MemberInfo)
    ensures d.name == "" && d.email == "" && d.phone == ""
    ensures d.role == "Employee" && d.role in Roles && d.joinDate == today
  {
    MemberInfo("", "", "", "Employee", today)
  }

  /** The three members installed when nothing is stored yet. */
  function SampleMembers(): (ms: seq<TeamMember>)
    ensures |ms| == 3
    ensures forall i :: 0 <= i < |ms| ==> ms[i].id == ["1", "2", "3"][i]
    ensures UniqueIds(ms)
    ensures forall i :: 0 <= i < |ms| ==> ms[i].info.role in Roles
  {
    [ TeamMember("1", MemberInfo("John Doe", "john.doe@shippy.com", "+91 9876543210", "Admin", "2024-01-15")),
      TeamMember("2", MemberInfo("Jane Smith", "jane.smith@shippy.com", "+91 9876543211", "Manager", "2024-02-20")),
      TeamMember("3", MemberInfo("Mike Johnson", "mike.johnson@shippy.com", "+91 9876543212", "Employee", "2024-03-10")) ]
  }

  /** The editable fields, named as in the `keyof TeamMember` argument. */
  datatype MemberField = Name | Email | Phone | Role | JoinDate

  function Get(m: MemberInfo, f: MemberField): string {
    match f
    case Name => m.name
    case Email => m.email
    case Phone => m.phone
    case Role => m.role
    case JoinDate => m.joinDate
  }

  /** `{ ...m, [field]: value }`: the named field takes the value and every
      other field keeps its old one. */
  function Edited(m: MemberInfo, f: MemberField, v: string): (r: MemberInfo)
    ensures Get(r, f) == v
    ensures forall g :: g != f ==> Get(r, g) == Get(m, g)
  {
    match f
    case Name => m.(name := v)
    case Email => m.(email := v)
    case Phone => m.(phone := v)
    case Role => m.(role := v)
    case JoinDate => m.(joinDate := v)
  }

  function HasId(id: string): TeamMember -> bool {
    (m: TeamMember) => m.id == id
  }

  function OtherThan(id: string): TeamMember -> bool {
    (m: TeamMember) => m.id != id
  }

  function EditWith(f: MemberField, v: string): TeamMember -> TeamMember {
    (m: TeamMember) => m.(info := Edited(m.info, f, v))
  }

  /** `teamMembers.map(m => m.id === id ? { ...m, [field]: value } : m)`:
      the same members in the same order, only the named field of those
      whose id matches changed; an unknown id changes nothing. */
  function EditMembers(ms: seq<TeamMember>, id: string, f: MemberField, v: string): (r: seq<TeamMember>)
    ensures |r| == |ms|
    ensures forall i :: 0 <= i < |ms| ==> r[i].id == ms[i].id
    ensures forall i :: 0 <= i < |ms| && ms[i].id == id ==> r[i].info == Edited(ms[i].info, f, v)
    ensures forall i :: 0 <= i < |ms| && ms[i].id != id ==> r[i] == ms[i]
    ensures id !in IdSet(ms) ==> r == ms
  {
    var r := MapWhere(ms, HasId(id), EditWith(f, v));
    assert id !in IdSet(ms) ==> r == ms by {
      if id !in IdSet(ms) {
        forall i | 0 <= i < |ms| ensures r[i] == ms[i] {
          assert ms[i] in ms;
        }
      }
    }
    r
  }

  /** `teamMembers.filter(m => m.id !== id)`: the members with another id,
      and only those; none with `id` is left. */
  function DeleteMembers(ms: seq<TeamMember>, id: string): (r: seq<TeamMember>)
    ensures forall m :: m in r <==> m in ms && m.id != id
    ensures id !in IdSet(r)
  {
    Filter(ms, OtherThan(id))
  }

  /** Deleting keeps the remaining members in their original relative order. */
  lemma DeleteKeepsOrder(a: seq<TeamMember>, b: seq<TeamMember>, id: string)
    ensures DeleteMembers(a + b, id) == DeleteMembers(a, id) + DeleteMembers(b, id)
  {
    FilterAppend(a, b, OtherThan(id));
  }

  /** With unique ids, deleting removes exactly one member when the id is
      present and returns the list unchanged when it is not. */
  lemma DeleteLength(ms: seq<TeamMember>, id: string)
    requires UniqueIds(ms)
    ensures id in IdSet(ms) ==> |DeleteMembers(ms, id)| == |ms| - 1
    ensures id !in IdSet(ms) ==> DeleteMembers(ms, id) == ms
  {
    if id in IdSet(ms) {
      var k :| 0 <= k < |ms| && ms[k].id == id;
      forall i | 0 <= i < |ms| && i != k ensures OtherThan(id)(ms[i]) {
        assert IdOf(ms[i]) != IdOf(ms[k]);
      }
      FilterDropsOne(ms, OtherThan(id), k);
    } else {
      forall i | 0 <= i < |ms| ensures OtherThan(id)(ms[i]) {
        assert ms[i] in ms;
      }
      FilterKeepsAll(ms, OtherThan(id));
    }
  }

  /** Unique ids stay unique under edit, delete, and an add whose id is fresh. */
  lemma UniqueIdsPreserved(ms: seq<TeamMember>, id: string, f: MemberField, v: string, draft: MemberInfo, newId: string)
    requires UniqueIds(ms)
    ensures UniqueIds(EditMembers(ms, id, f, v))
    ensures UniqueIds(DeleteMembers(ms, id))
    ensures newId !in IdSet(ms) ==> UniqueIds(ms + [TeamMember(newId, draft)])
  {
    FilterKeepsUniqueKeys(ms, IdOf, OtherThan(id));
    if newId !in IdSet(ms) {
      var r := ms + [TeamMember(newId, draft)];
      forall i, j | 0 <= i < j < |r| ensures IdOf(r[i]) != IdOf(r[j]) {
        if j == |ms| {
          assert r[i] in ms;
        }
      }
    }
  }

  const DefaultRoleColor := "bg-gray-100 text-gray-800"

  /** `getRoleColor`: the badge classes of a role; each of the five roles has
      its own, and every other string gets the gray default. */
  function RoleColor(role: string): (c: string)
    ensures c == DefaultRoleColor <==> role !in Roles
  {
    match role
    case "Admin" => "bg-red-100 text-red-800"
    case "Manager" => "bg-blue-100 text-blue-800"
    case "Employee" => "bg-green-100 text-green-800"
    case "Intern" => "bg-yellow-100 text-yellow-800"
    case "Contractor" => "bg-purple-100 text-purple-800"
    case _ => DefaultRoleColor
  }

  /** No two roles share a badge colour. */
  lemma RoleColorsDistinct(r1: string, r2: string)
    requires r1 in Roles && r2 in Roles && r1 != r2
    ensures RoleColor(r1) != RoleColor(r2)
  {}

  function HasRole(role: string): TeamMember -> bool {
    (m: TeamMember) => m.info.role == role
  }

  /** `teamMembers.filter(m => m.role === role).length`: the members holding `role`. */
  function RoleCount(ms: seq<TeamMember>, role: string): (n: nat)
    ensures n == Count(ms, HasRole(role))
    ensures n <= |ms|
    ensures n == 0 <==> forall i :: 0 <= i < |ms| ==> ms[i].info.role != role
  {
    var r := Filter(ms, HasRole(role));
    assert r == [] <==> forall i :: 0 <= i < |ms| ==> ms[i].info.role != role by {
      if r != [] {
        assert r[0] in r;
      } else {
        forall i | 0 <= i < |ms| ensures ms[i].info.role != role {
          assert ms[i] in ms;
        }
      }
    }
    FilterLength(ms, HasRole(role));
    |r|
  }

  /** Adding a member raises the count of its role by one and leaves every
      other role's count as it was. */
  lemma RoleCountAfterAdd(ms: seq<TeamMember>, m: TeamMember, role: string)
    ensures RoleCount(ms + [m], role) == RoleCount(ms, role) + (if m.info.role == role then 1 else 0)
  {
    assert (ms + [m])[..|ms|] == ms;
  }

  /** The summary cards: the Admin and Employee counts together never exceed
      the Total card. */
  lemma RoleCountsWithinTotal(ms: seq<TeamMember>)
    ensures RoleCount(ms, "Admin") + RoleCount(ms, "Employee") <= |ms|
  {
    FilterDisjoint(ms, HasRole("Admin"), HasRole("Employee"));
  }
}
