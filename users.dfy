/**
 * The custom user model of backend/users/models.py: users are identified by
 * email, created through a manager that validates the email and the staff
 * flags, and shown by full name or else by email.
 */
module Users {
  import opened Wrappers
  import Text

  /** A Python value passed as an extra field of create_user/create_superuser. */
  datatype PyValue = PyNone | PyBool(b: bool) | PyInt(i: int) | PyStr(s: string)

  /** What make_password leaves: a hash of the given password, or an unusable one for None. */
  datatype Password = Usable(raw: string) | Unusable

  datatype User = User(email: string, password: Password, fields: map<string, PyValue>)

  const IsStaff: string := "is_staff"
  const IsSuperuser: string := "is_superuser"

  const MissingEmail: string := "Users must have an email address"
  const StaffRequired: string := "Superuser must have is_staff=True."
  const SuperuserRequired: string := "Superuser must have is_superuser=True."
  const DuplicateEmail: string := "UNIQUE constraint failed: email"

  /** dict.setdefault: the key keeps a value it already has, otherwise gets the default. */
  function SetDefault(fields: map<string, PyValue>, key: string, default: PyValue): (r: map<string, PyValue>)
    ensures key in r && r[key] == (if key in fields then fields[key] else default)
    ensures forall k :: k in fields ==> k in r && r[k] == fields[k]
    ensures r.Keys == fields.Keys + {key}
  {
    if key in fields then fields else fields[key := default]
  }

  /** check_password: the password given at creation, and nothing else, is accepted. */
  predicate CheckPassword(u: User, attempt: string) {
    u.password == Usable(attempt)
  }

  /**
   * _create_user: an email that is None or empty raises ValueError;
   * otherwise the user with the extra fields and the hashed password.
   * Saving an email already taken violates the unique constraint.
   */
  function CreateUserRecord(existing: seq<User>, email: Option<string>, password: Option<string>, fields: map<string, PyValue>): (r: Result<User, string>)
    ensures r.Ok? <==> email.Some? && email.value != "" && forall u :: u in existing ==> u.email != email.value
    ensures r.Ok? ==> r.value.email == email.value && r.value.fields == fields
    ensures r.Ok? ==> forall p :: CheckPassword(r.value, p) <==> password == Some(p)
    ensures email.None? || email == Some("") ==> r == Err(MissingEmail)
  {
    if email.None? || email.value == "" then Err(MissingEmail)
    else if exists u :: u in existing && u.email == email.value then Err(DuplicateEmail)
    else Ok(User(email.value, if password.Some? then Usable(password.value) else Unusable, fields))
  }

  /** create_user: is_staff and is_superuser default to False. */
  function CreatedUser(existing: seq<User>, email: Option<string>, password: Option<string>, fields: map<string, PyValue>): Result<User, string> {
    var f := SetDefault(SetDefault(fields, IsStaff, PyBool(false)), IsSuperuser, PyBool(false));
    CreateUserRecord(existing, email, password, f)
  }

  /**
   * create_superuser: both flags default to True, and each must then be
   * exactly True (`is not True`), is_staff checked first.
   */
  function CreatedSuperuser(existing: seq<User>, email: Option<string>, password: Option<string>, fields: map<string, PyValue>): Result<User, string> {
    var f := SetDefault(SetDefault(fields, IsStaff, PyBool(true)), IsSuperuser, PyBool(true));
    if f[IsStaff] != PyBool(true) then Err(StaffRequired)
    else if f[IsSuperuser] != PyBool(true) then Err(SuperuserRequired)
    else CreateUserRecord(existing, email, password, f)
  }

  /**
   * create_user gives a user that is neither staff nor superuser unless the
   * caller says otherwise, and keeps whatever the caller passed.
   */
  lemma CreateUserFlags(existing: seq<User>, email: Option<string>, password: Option<string>, fields: map<string, PyValue>)
    ensures var r := CreatedUser(existing, email, password, fields);
      r.Ok? ==>
        && r.value.fields[IsStaff] == (if IsStaff in fields then fields[IsStaff] else PyBool(false))
        && r.value.fields[IsSuperuser] == (if IsSuperuser in fields then fields[IsSuperuser] else PyBool(false))
        && forall k :: k in fields ==> k in r.value.fields && r.value.fields[k] == fields[k]
  {
  }

  /**
   * create_superuser succeeds only with both flags exactly True; is_staff
   * is judged first, so a caller who unsets both hears about is_staff.
   */
  lemma CreateSuperuserFlags(existing: seq<User>, email: Option<string>, password: Option<string>, fields: map<string, PyValue>)
    ensures var r := CreatedSuperuser(existing, email, password, fields);
      && (r.Ok? ==> r.value.fields[IsStaff] == PyBool(true) && r.value.fields[IsSuperuser] == PyBool(true))
      && (IsStaff in fields && fields[IsStaff] != PyBool(true) ==> r == Err(StaffRequired))
      && (IsStaff !in fields || fields[IsStaff] == PyBool(true) ==>
            IsSuperuser in fields && fields[IsSuperuser] != PyBool(true) ==> r == Err(SuperuserRequired))
      && (IsStaff !in fields && IsSuperuser !in fields ==> r == CreateUserRecord(existing, email, password, fields[IsStaff := PyBool(true)][IsSuperuser := PyBool(true)]))
  {
  }

  /** `get_full_name()`: first and last name joined by a space, stripped. */
  function FullName(first: string, last: string): string {
    Text.Trim(first + " " + last)
  }

  /** `__str__`: the full name when it is not empty, else the email. */
  function UserLabel(first: string, last: string, email: string): (r: string)
    ensures r == email || (r != [] && !Text.IsSpace(r[0]) && !Text.IsSpace(r[|r| - 1]))
    ensures r == email <== Text.AllSpace(first) && Text.AllSpace(last)
  {
    var name := FullName(first, last);
    assert Text.AllSpace(first) && Text.AllSpace(last) ==> Text.AllSpace(first + " " + last);
    if name != "" then name else email
  }

  /** With no names the label is the email; with a first and a last name it is those two, a space between. */
  lemma UserLabelCases(first: string, last: string, email: string)
    ensures UserLabel("", "", email) == email
    ensures first != [] && last != [] && !Text.IsSpace(first[0]) && !Text.IsSpace(last[|last| - 1]) ==>
      UserLabel(first, last, email) == first + " " + last
  {
    assert Text.AllSpace(" ");
    if first != [] && last != [] && !Text.IsSpace(first[0]) && !Text.IsSpace(last[|last| - 1]) {
      var s := first + " " + last;
      Text.TrimKeeps(s);
    }
  }

  /** The users table. */
  class UserTable {
    var users: seq<User>

    /** Emails are unique. */
    ghost predicate Valid()
      reads this
    {
      forall i, j :: 0 <= i < j < |users| ==> users[i].email != users[j].email
    }

    constructor ()
      ensures users == [] && Valid()
    {
      users := [];
    }

    /** The save of _create_user: on success the user is appended, on failure nothing is stored. */
    method Save(r: Result<User, string>)
      requires Valid()
      requires r.Ok? ==> forall u :: u in users ==> u.email != r.value.email
      modifies this
      ensures Valid()
      ensures users == if r.Ok? then old(users) + [r.value] else old(users)
    {
      if r.Ok? {
        users := users + [r.value];
      }
    }

    /** UserManager.create_user. */
    method CreateUser(email: Option<string>, password: Option<string>, fields: map<string, PyValue>) returns (r: Result<User, string>)
      requires Valid()
      modifies this
      ensures Valid()
      ensures r == CreatedUser(old(users), email, password, fields)
      ensures users == if r.Ok? then old(users) + [r.value] else old(users)
    {
      var f := SetDefault(fields, IsStaff, PyBool(false));
      f := SetDefault(f, IsSuperuser, PyBool(false));
      r := CreateUserRecord(users, email, password, f);
      Save(r);
    }

    /** UserManager.create_superuser. */
    method CreateSuperuser(email: Option<string>, password: Option<string>, fields: map<string, PyValue>) returns (r: Result<User, string>)
      requires Valid()
      modifies this
      ensures Valid()
      ensures r == CreatedSuperuser(old(users), email, password, fields)
      ensures users == if r.Ok? then old(users) + [r.value] else old(users)
    {
      var f := SetDefault(fields, IsStaff, PyBool(true));
      f := SetDefault(f, IsSuperuser, PyBool(true));
      if f[IsStaff] != PyBool(true) {
        return Err(StaffRequired);
      }
      if f[IsSuperuser] != PyBool(true) {
        return Err(SuperuserRequired);
      }
      r := CreateUserRecord(users, email, password, f);
      Save(r);
    }
  }
}
