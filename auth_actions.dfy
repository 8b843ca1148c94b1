/** Registration: schema check, then a lookup of the e-mail address, then the
    insert of the new user with a hashed password. The e-mail check and the
    password hash are calls into libraries and enter as functions. */
module AuthActions {
  import opened Entities
  import opened Store

  /** `Object.fromEntries(formData.entries())`: None for a field the form
      does not send (it is then undefined, which `z.string()` rejects). */
  datatype RegisterForm = RegisterForm(name: Option<string>, email: Option<string>, password: Option<string>)

  datatype Registration = Registration(name: string, email: string, password: string)

  const InvalidFields := "Geçersiz alanlar!"

  /** `registerSchema.safeParse(data)`: a name of at least 3 characters, an
      address the e-mail check accepts and a password of at least 6. */
  function ValidatedRegistration(form: RegisterForm, isEmail: string -> bool): (r: Option<Registration>)
    ensures r.Some? <==>
      && form.name.Some? && |form.name.value| >= 3
      && form.email.Some? && isEmail(form.email.value)
      && form.password.Some? && |form.password.value| >= 6
    ensures r.Some? ==> r.value == Registration(form.name.value, form.email.value, form.password.value)
  {
    if form.name.None? || |form.name.value| < 3 then None
    else if form.email.None? || !isEmail(form.email.value) then None
    else if form.password.None? || |form.password.value| < 6 then None
    else Some(Registration(form.name.value, form.email.value, form.password.value))
  }

  /** `prisma.user.findUnique({ where: { email } })` finds a user. */
  predicate EmailInUse(users: map<Id, User>, email: string) {
    exists id :: id in users && users[id].email == email
  }

  /** No two users share an e-mail address (the column is unique). */
  predicate EmailsUnique(users: map<Id, User>) {
    forall a, b :: a in users && b in users && users[a].email == users[b].email ==> a == b
  }

  /** Adding a user under a fresh id with an address nobody uses keeps the
      addresses unique. */
  lemma AddUserKeepsEmailsUnique(users: map<Id, User>, id: Id, user: User)
    requires EmailsUnique(users)
    requires id !in users && !EmailInUse(users, user.email)
    ensures EmailsUnique(users[id := user])
  {
    var after := users[id := user];
    forall a, b | a in after && b in after && after[a].email == after[b].email
      ensures a == b
    {
      if a != id && b != id {
        assert users[a].email == users[b].email;
      }
    }
  }

  /** `registerUser`. A validation failure also returns the per-field errors,
      which are not modelled. */
  method RegisterUser(db: Database, form: RegisterForm, isEmail: string -> bool,
                      hash: string -> string, newId: Id, fault: bool)
    returns (r: Response)
    modifies db`users
    ensures ValidatedRegistration(form, isEmail).None? ==> r == Err(InvalidFields) && db.users == old(db.users)
    ensures ValidatedRegistration(form, isEmail).Some? && EmailInUse(old(db.users), form.email.value) ==>
      r == Err("email_in_use") && db.users == old(db.users)
    ensures ValidatedRegistration(form, isEmail).Some? && !EmailInUse(old(db.users), form.email.value)
            && (fault || newId in old(db.users)) ==>
      r == Err("registration_failed") && db.users == old(db.users)
    ensures r.Ok? <==> ValidatedRegistration(form, isEmail).Some? && !EmailInUse(old(db.users), form.email.value)
                       && !fault && newId !in old(db.users)
    ensures r.Ok? ==> r.code == "registration_success"
    ensures r.Ok? ==>
      db.users == old(db.users)[newId := User(newId, form.name.value, form.email.value, hash(form.password.value))]
    ensures r.Ok? ==> |db.users| == |old(db.users)| + 1
    ensures EmailsUnique(old(db.users)) ==> EmailsUnique(db.users)
  {
    var validated := ValidatedRegistration(form, isEmail);
    if validated.None? {
      return Err(InvalidFields);
    }
    var reg := validated.value;
    if EmailInUse(db.users, reg.email) {
      return Err("email_in_use");
    }
    var hashedPassword := hash(reg.password);
    if fault || newId in db.users {
      return Err("registration_failed");
    }
    var user := User(newId, reg.name, reg.email, hashedPassword);
    if EmailsUnique(db.users) {
      AddUserKeepsEmailsUnique(db.users, newId, user);
    }
    db.users := db.users[newId := user];
    r := Ok("registration_success");
  }
}
