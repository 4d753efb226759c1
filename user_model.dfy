/** The account data model of `server/src/models/User.js`: the record shape and its schema
    constraints, the pre-save hook that hashes a modified password, and `comparePassword`. */
module UserModel {
  import opened Base
  import opened Text
  import opened Credentials

  /** The schema's `enum` for `role`. */
  datatype Role = Admin | Candidate | Client

  function RoleName(r: Role): string {
    match r
    case Admin => "Admin"
    case Candidate => "Candidate"
    case Client => "Client"
  }

  /** The enum check: a string names a role exactly when it is one of the three names. */
  function ParseRole(s: string): (r: Option<Role>)
    ensures r.Some? ==> RoleName(r.value) == s
    ensures forall role :: s == RoleName(role) ==> r == Some(role)
  {
    if s == "Admin" then Some(Admin)
    else if s == "Candidate" then Some(Candidate)
    else if s == "Client" then Some(Client)
    else None
  }

  /** A stored account. `password` holds what the store keeps (a hash once saved). */
  datatype Account = Account(
    id: string,
    email: string,
    password: string,
    role: Role,
    name: string,
    createdAt: int)

  /** The fields a new account is created from. */
  datatype NewUser = NewUser(email: string, password: string, role: Role, name: string)

  /** What the schema guarantees of every stored record: `email` is present and kept
      lower-cased and trimmed, `name` is kept trimmed, and the password is a hash. */
  predicate Conforms(a: Account) {
    && a.email != []
    && IsNormalized(a.email)
    && IsTrimmed(a.name)
    && IsHash(a.password)
  }

  /** The pre-save hook's rule for the password field. */
  function PasswordAfterSave(password: string, modified: bool): string {
    if modified then Hash(password) else password
  }

  /** `comparePassword(p)` on a record. */
  predicate ComparePassword(a: Account, p: string) {
    Compare(p, a.password)
  }

  /** A record saved from plaintext `plain` accepts exactly `plain`. */
  lemma ComparePasswordSaved(a: Account, plain: string, p: string)
    requires a.password == PasswordAfterSave(plain, true)
    ensures ComparePassword(a, p) <==> p == plain
  {
    CompareHash(p, plain);
  }

  /** Saving a second time without touching the password keeps the hash as it was. */
  lemma ResaveKeepsHash(plain: string, modified: bool)
    ensures PasswordAfterSave(PasswordAfterSave(plain, true), modified) == Hash(plain) <==> !modified
  {
    assert Hash(Hash(plain)) != Hash(plain);
  }

  datatype SaveResult = Saved | Invalid(message: string)

  /** The start of the message of the `ValidationError` that `save` rejects with; Mongoose
      goes on to name each failing path, which the model leaves out. */
  const ValidationFailed: string := "User validation failed"

  /** A Mongoose document of the `User` model, whose fields `save` updates in place. */
  class UserDocument {
    const id: string
    var email: string
    var password: string
    var role: Role
    var name: string
    const createdAt: int
    /** Mongoose's `isModified('password')`. */
    var passwordModified: bool

    function Snapshot(): Account
      reads this
    {
      Account(id, email, password, role, name, createdAt)
    }

    /** `new User(data)`: the `lowercase` and `trim` setters run on assignment, `createdAt`
        takes its default (the creation time), and every path of a new document is modified. */
    constructor (id: string, data: NewUser, now: int)
      ensures Snapshot() == Account(id, Normalize(data.email), data.password, data.role, Trim(data.name), now)
      ensures passwordModified
    {
      this.id := id;
      email := Normalize(data.email);
      password := data.password;
      role := data.role;
      name := Trim(data.name);
      createdAt := now;
      passwordModified := true;
    }

    /** The schema's `required` validators (an empty string fails them). */
    predicate HasRequired()
      reads this
    {
      email != [] && password != [] && name != []
    }

    /** `save()`: validation runs first; then the pre-save hook replaces the password by its
        hash exactly when the path was modified; afterwards no path counts as modified. */
    method Save() returns (r: SaveResult)
      modifies this
      ensures r == if old(HasRequired()) then Saved else Invalid(ValidationFailed)
      ensures r.Saved? ==> Snapshot() == old(Snapshot()).(password := PasswordAfterSave(old(password), old(passwordModified)))
      ensures r.Saved? ==> !passwordModified
      ensures r.Invalid? ==> Snapshot() == old(Snapshot()) && passwordModified == old(passwordModified)
    {
      if !HasRequired() {
        return Invalid(ValidationFailed);
      }
      if passwordModified {
        password := Hash(password);
      }
      passwordModified := false;
      r := Saved;
    }

    /** `comparePassword(p)` on the document. */
    predicate ComparePassword(p: string)
      reads this
    {
      Compare(p, password)
    }
  }

  /** `new User(data).save()`: the saved record has the normalized e-mail and name and the
      hashed password, or validation refuses a record whose required fields came out empty. */
  method CreateAndSave(id: string, data: NewUser, now: int) returns (r: SaveResult, a: Account)
    ensures r.Saved? <==> Normalize(data.email) != [] && data.password != [] && Trim(data.name) != []
    ensures r.Invalid? ==> r.message == ValidationFailed
    ensures r.Saved? ==>
      a == Account(id, Normalize(data.email), Hash(data.password), data.role, Trim(data.name), now)
  {
    var d := new UserDocument(id, data, now);
    r := d.Save();
    a := d.Snapshot();
  }

  /** Creating a document and saving it twice hashes the password once: the second save
      leaves the hash alone, and the document then accepts exactly the original plaintext. */
  method CreateAndSaveTwice(id: string, data: NewUser, now: int)
    returns (d: UserDocument, first: SaveResult, second: SaveResult)
    ensures first == second
    ensures first.Saved? ==> d.password == Hash(data.password)
    ensures first.Saved? ==> forall p :: d.ComparePassword(p) <==> p == data.password
  {
    d := new UserDocument(id, data, now);
    ghost var created := d.Snapshot();
    first := d.Save();
    ghost var saved := d.Snapshot();
    assert first.Saved? ==> saved.password == Hash(data.password);
    assert first.Invalid? ==> saved == created;
    second := d.Save();
    if first.Saved? {
      assert d.Snapshot() == saved;
      forall p
        ensures d.ComparePassword(p) <==> p == data.password
      {
        CompareHash(p, data.password);
      }
    }
  }
}
