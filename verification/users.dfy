/** src/components/Users.tsx: the payload `handleCreateOrUpdate` sends, the
    role names and ids, the role tags and colours, the displayed name, and the
    password fields' validation rules. */
module Users {
  import opened Wrappers
  import opened Text

  // ---------------------------------------------------------------------------
  // Roles

  const KnownRoles := ["Owner", "Admin", "Editor", "Viewer"]

  /** The id the backend knows a role name by; any other name becomes 0. */
  function RoleId(name: string): (id: nat)
    ensures id <= 4
    ensures id == 0 <==> name !in KnownRoles
    ensures id != 0 ==> KnownRoles[id - 1] == name
  {
    match name
    case "Admin" => 2
    case "Editor" => 3
    case "Viewer" => 4
    case "Owner" => 1
    case _ => 0
  }

  /** `values.roles.map(...)`: one id per selected name, in the same order. */
  function RoleIds(names: seq<string>): (ids: seq<nat>)
    ensures |ids| == |names|
    ensures forall i :: 0 <= i < |names| ==> ids[i] == RoleId(names[i])
  {
    seq(|names|, i requires 0 <= i < |names| => RoleId(names[i]))
  }

  /** A role as the user list carries it. */
  datatype Role = Role(id: nat, name: string)

  function RoleNames(roles: seq<Role>): (names: seq<string>)
    ensures |names| == |roles|
    ensures forall i :: 0 <= i < |roles| ==> names[i] == roles[i].name
  {
    seq(|roles|, i requires 0 <= i < |roles| => roles[i].name)
  }

  /** The backend's ids agree with the fixed name-to-id table. */
  predicate StandardIds(roles: seq<Role>) {
    forall i :: 0 <= i < |roles| ==> RoleId(roles[i].name) == roles[i].id
  }

  /** Opening the edit form fills the role field with the user's role names;
      submitting it unchanged sends back exactly the user's role ids, in
      order, whenever the backend numbers its roles as the table does. */
  lemma EditedRolesKeepTheirIds(roles: seq<Role>)
    requires StandardIds(roles)
    ensures RoleIds(RoleNames(roles)) == seq(|roles|, i requires 0 <= i < |roles| => roles[i].id)
  {
  }

  /** The id of a known role names it back; distinct known roles get distinct ids. */
  lemma RoleIdsDistinguishKnownRoles(a: string, b: string)
    requires a in KnownRoles && b in KnownRoles
    ensures RoleId(a) == RoleId(b) <==> a == b
  {
  }

  /** `getRoleColor`: a fixed colour per known role, "default" otherwise. */
  function RoleColor(name: string): (color: string)
    ensures color == "gold" <==> name == "Owner"
    ensures color == "red" <==> name == "Admin"
    ensures color == "blue" <==> name == "Editor"
    ensures color == "green" <==> name == "Viewer"
    ensures color == "default" <==> name !in KnownRoles
  {
    match name
    case "Owner" => "gold"
    case "Admin" => "red"
    case "Editor" => "blue"
    case "Viewer" => "green"
    case _ => "default"
  }

  /** Each known role has its own colour, distinct from the default one. */
  lemma RoleColorsDistinct(a: string, b: string)
    requires a in KnownRoles && b in KnownRoles
    ensures RoleColor(a) == RoleColor(b) <==> a == b
  {
  }

  /** A role tag: its text and colour. */
  datatype RoleTag = RoleTag(name: string, color: string)

  /** `getRoleDisplay`: an owner gets a single Owner tag whatever roles it has;
      anyone else gets one tag per role, in order. */
  function RoleDisplay(owner: bool, roles: seq<Role>): (tags: seq<RoleTag>)
    ensures owner ==> tags == [RoleTag("Owner", "gold")]
    ensures !owner ==> |tags| == |roles|
    ensures !owner ==> forall i :: 0 <= i < |roles| ==> tags[i].name == roles[i].name
  {
    if owner then [RoleTag("Owner", RoleColor("Owner"))]
    else seq(|roles|, i requires 0 <= i < |roles| => RoleTag(roles[i].name, RoleColor(roles[i].name)))
  }

  /** Every tag shown is coloured by its own name. */
  lemma TagsColouredByName(owner: bool, roles: seq<Role>)
    ensures forall t :: t in RoleDisplay(owner, roles) ==> t.color == RoleColor(t.name)
  {
  }

  // ---------------------------------------------------------------------------
  // The displayed name

  const NotAvailable := "N/A"

  /** `${first || ''} ${last || ''}`: a missing name counts as empty. */
  function FullName(first: Option<string>, last: Option<string>): string {
    first.GetOr("") + " " + last.GetOr("")
  }

  /** The name column: the trimmed full name, or "N/A" when nothing is left. */
  function DisplayName(first: Option<string>, last: Option<string>): (r: string)
    ensures r != ""
    ensures Trim(FullName(first, last)) != "" ==> r == Trim(FullName(first, last))
    ensures Trim(FullName(first, last)) == "" ==> r == NotAvailable
  {
    var trimmed := Trim(FullName(first, last));
    if trimmed != "" then trimmed else NotAvailable
  }

  /** A name part without white space at its ends. */
  predicate Clean(s: string) {
    |s| > 0 && !IsJsSpace(s[0]) && !IsJsSpace(s[|s| - 1])
  }

  /** Both names present: they are shown separated by one space. */
  lemma DisplayBothNames(first: string, last: string)
    requires Clean(first) && Clean(last)
    ensures DisplayName(Some(first), Some(last)) == first + " " + last
  {
    TrimUntouched(first + " " + last);
  }

  /** No names: "N/A". */
  lemma DisplayNoName(first: Option<string>, last: Option<string>)
    requires first.GetOr("") == "" && last.GetOr("") == ""
    ensures DisplayName(first, last) == NotAvailable
  {
    assert FullName(first, last) == " ";
    assert LeadingSpaces(" ") == 1;
  }

  /** Only the last name: it is shown alone, without the separating space. */
  lemma DisplayLastNameOnly(first: Option<string>, last: string)
    requires first.GetOr("") == "" && Clean(last)
    ensures DisplayName(first, Some(last)) == last
  {
    var s := " " + last;
    assert FullName(first, Some(last)) == s;
    assert s[1..] == last;
    assert LeadingSpaces(s) == 1;
    assert TrailingSpaces(s) == 0;
    assert s[1..|s|] == last;
  }

  /** Only the first name: it is shown alone, without the separating space. */
  lemma DisplayFirstNameOnly(first: string, last: Option<string>)
    requires Clean(first) && last.GetOr("") == ""
    ensures DisplayName(Some(first), last) == first
  {
    var s := first + " ";
    assert FullName(Some(first), last) == s;
    assert LeadingSpaces(s) == 0;
    assert s[..|s| - 1] == first;
    assert TrailingSpaces(s) == 1;
    assert s[0..|s| - 1] == first;
  }

  // ---------------------------------------------------------------------------
  // handleCreateOrUpdate

  /** The submitted form; a field left untouched is `None`. */
  datatype UserForm = UserForm(firstName: string, lastName: string, username: string, email: string,
                               password: Option<string>, confirmPassword: Option<string>,
                               currentPassword: Option<string>, roles: seq<string>)

  /** `UserData`: the optional fields are `None` when absent. */
  datatype UserPayload = UserPayload(firstName: string, lastName: string, username: string, email: string,
                                     password: Option<string>, passwordConfirmation: Option<string>,
                                     passwordCurrent: Option<string>, roleIds: Option<seq<nat>>)

  datatype UserRequest = CreateUser(payload: UserPayload) | UpdateUser(id: int, payload: UserPayload)

  /** `if (editingUserId)`: an id is being edited only when it is set and
      not 0, since 0 is falsy. */
  predicate IsEditing(editingUserId: Option<int>) {
    editingUserId.Some? && editingUserId.value != 0
  }


  /** The request `handleCreateOrUpdate` sends, given the id being edited and
      the signed-in user's id. An update carries the role ids, and the current
      password only when users edit themselves and type a new password; a
      creation carries neither. Both carry the password fields as typed. */
  function BuildUserRequest(editingUserId: Option<int>, signedInId: Option<int>, form: UserForm): (r: UserRequest)
    ensures r.UpdateUser? <==> IsEditing(editingUserId)
    ensures r.UpdateUser? ==> r.id == editingUserId.value
    ensures && r.payload.firstName == form.firstName && r.payload.lastName == form.lastName
            && r.payload.username == form.username && r.payload.email == form.email
    ensures r.payload.password == form.password
    ensures r.payload.passwordConfirmation == form.confirmPassword
    ensures r.CreateUser? ==> r.payload.roleIds.None? && r.payload.passwordCurrent.None?
    ensures r.UpdateUser? ==> r.payload.roleIds == Some(RoleIds(form.roles))
    ensures r.payload.passwordCurrent.Some? ==>
      && r.UpdateUser? && signedInId == editingUserId && Present(form.password)
      && r.payload.passwordCurrent == form.currentPassword
    ensures r.UpdateUser? && signedInId == editingUserId && Present(form.password) ==>
      r.payload.passwordCurrent == form.currentPassword
  {
    var base := UserPayload(form.firstName, form.lastName, form.username, form.email, None, None, None, None);
    if IsEditing(editingUserId) then
      var withRoles := base.(roleIds := Some(RoleIds(form.roles)),
                             password := form.password, passwordConfirmation := form.confirmPassword);
      var payload := if editingUserId == signedInId && Present(form.password)
                     then withRoles.(passwordCurrent := form.currentPassword)
                     else withRoles;
      UpdateUser(editingUserId.value, payload)
    else
      CreateUser(base.(password := form.password, passwordConfirmation := form.confirmPassword))
  }

  /** Editing user 0 creates a new user instead, with no roles attached. */
  lemma EditingUserZeroCreates(signedInId: Option<int>, form: UserForm)
    ensures BuildUserRequest(Some(0), signedInId, form).CreateUser?
    ensures BuildUserRequest(Some(0), signedInId, form).payload.roleIds.None?
  {
  }

  /** An edit that leaves the password empty never sends the current password. */
  lemma NoNewPasswordNoCurrentPassword(editingUserId: Option<int>, signedInId: Option<int>, form: UserForm)
    requires !Present(form.password)
    ensures BuildUserRequest(editingUserId, signedInId, form).payload.passwordCurrent.None?
  {
  }

  // ---------------------------------------------------------------------------
  // Validation rules of the password fields

  const PasswordRequired := "Please input the password!"
  const PasswordTooShort := "Password must be at least 6 characters long"
  const ConfirmRequired := "Please confirm the password!"
  const PasswordsDiffer := "The two passwords do not match!"

  /** The password field's first failing rule: required only when creating,
      and at least 6 characters whenever something is typed. */
  function PasswordError(editing: bool, password: Option<string>): (error: Option<string>)
    ensures error.None? <==> (editing || Present(password)) && (!Present(password) || |password.value| >= 6)
    ensures error == Some(PasswordRequired) <==> !editing && !Present(password)
    ensures Present(password) && |password.value| < 6 ==> error == Some(PasswordTooShort)
  {
    if !editing && !Present(password) then Some(PasswordRequired)
    else if Present(password) && |password.value| < 6 then Some(PasswordTooShort)
    else None
  }

  /** The confirmation field's first failing rule: required only when
      creating; otherwise an empty confirmation passes and a typed one must
      equal the password. */
  function ConfirmError(editing: bool, password: Option<string>, confirm: Option<string>): (error: Option<string>)
    ensures error.None? <==> (editing || Present(confirm)) && (!Present(confirm) || password == confirm)
    ensures error == Some(PasswordsDiffer) <==> (editing || Present(confirm)) && Present(confirm) && password != confirm
    ensures !editing && !Present(confirm) ==> error == Some(ConfirmRequired)
  {
    if !editing && !Present(confirm) then Some(ConfirmRequired)
    else if !Present(confirm) || password == confirm then None
    else Some(PasswordsDiffer)
  }

  /** A creation form that passes both rules sends a password of at least six
      characters and a confirmation equal to it. */
  lemma AcceptedCreationHasMatchingPasswords(signedInId: Option<int>, form: UserForm)
    requires PasswordError(false, form.password).None?
    requires ConfirmError(false, form.password, form.confirmPassword).None?
    ensures var p := BuildUserRequest(None, signedInId, form).payload;
      && p.password.Some? && |p.password.value| >= 6
      && p.passwordConfirmation == p.password
  {
  }

  /** Whatever passes when creating passes when editing, too. */
  lemma EditingIsNoStricter(password: Option<string>, confirm: Option<string>)
    ensures PasswordError(false, password).None? ==> PasswordError(true, password).None?
    ensures ConfirmError(false, password, confirm).None? ==> ConfirmError(true, password, confirm).None?
  {
  }
}
