/** The three Joi schemas of `server/src/services/userService.js`: `createUserSchema`,
    `updateUserSchema` and the schema `login` builds. Joi reports the first failing key in
    schema order (`abortEarly`), keys outside the schema after the schema's own keys, and its
    default English messages. Inputs are JSON objects whose values are strings or absent. */
module Schemas {
  import opened Base
  import opened Text
  import opened UserModel

  /** Joi's `string().email()`, reduced to its shape: one '@' with a non-empty local part
      before it, a domain of at least two non-empty '.'-separated labels after it, and no
      white space anywhere. */
  predicate ValidEmail(s: string) {
    && NoSpace(s)
    && var parts := Split(s, '@');
       && |parts| == 2
       && parts[0] != []
       && var labels := Split(parts[1], '.');
          && |labels| >= 2
          && forall i :: 0 <= i < |labels| ==> labels[i] != []
  }

  /** A valid address is non-empty and has no surrounding white space, so the schema's
      setters only lower-case it and never empty it. */
  lemma ValidEmailNormalizes(s: string)
    requires ValidEmail(s)
    ensures s != []
    ensures Normalize(s) == Lower(s)
    ensures Normalize(s) != []
  {
    NormalizeWithoutSpace(s);
  }

  /** The body of `register`. `extra` lists the keys outside the schema, in order. */
  datatype Registration = Registration(
    email: Option<string>,
    password: Option<string>,
    role: Option<string>,
    name: Option<string>,
    extra: seq<string>)

  /** The `{email, password}` object `login` validates. */
  datatype LoginForm = LoginForm(email: Option<string>, password: Option<string>)

  /** The body of `updateUser`. */
  datatype Patch = Patch(
    email: Option<string>,
    name: Option<string>,
    role: Option<string>,
    extra: seq<string>)

  /** A patch after validation, with the role resolved. */
  datatype Changes = Changes(email: Option<string>, name: Option<string>, role: Option<Role>)

  /** Joi's verdict: the input or the message of its first error. */
  datatype Checked<T> = Accepted(value: T) | Rejected(message: string)

  function Quoted(key: string): string {
    "\"" + key + "\""
  }

  function Digit(n: nat): string
    requires n < 10
  {
    [('0' as int + n) as char]
  }

  /** `Joi.string().email()`, optionally `.required()`. */
  function EmailError(v: Option<string>, required: bool): (err: Option<string>)
    ensures err.None? <==> (v.None? && !required) || (v.Some? && ValidEmail(v.value))
  {
    match v
    case None => if required then Some(Quoted("email") + " is required") else None
    case Some(e) =>
      if e == [] then Some(Quoted("email") + " is not allowed to be empty")
      else if !ValidEmail(e) then Some(Quoted("email") + " must be a valid email")
      else None
  }

  /** `Joi.string().min(min)`, optionally `.required()`; the empty string is refused first. */
  function MinLengthError(key: string, v: Option<string>, min: nat, required: bool): (err: Option<string>)
    requires 0 < min < 10
    ensures err.None? <==> (v.None? && !required) || (v.Some? && |v.value| >= min)
  {
    match v
    case None => if required then Some(Quoted(key) + " is required") else None
    case Some(x) =>
      if x == [] then Some(Quoted(key) + " is not allowed to be empty")
      else if |x| < min then Some(Quoted(key) + " length must be at least " + Digit(min) + " characters long")
      else None
  }

  /** `Joi.string().required()`. */
  function PresentError(key: string, v: Option<string>): (err: Option<string>)
    ensures err.None? <==> v.Some? && v.value != []
  {
    match v
    case None => Some(Quoted(key) + " is required")
    case Some(x) => if x == [] then Some(Quoted(key) + " is not allowed to be empty") else None
  }

  /** `Joi.string().valid('Admin', 'Candidate', 'Client')`, optionally `.required()`. */
  function RoleError(v: Option<string>, required: bool): (err: Option<string>)
    ensures err.None? <==> (v.None? && !required) || (v.Some? && ParseRole(v.value).Some?)
  {
    match v
    case None => if required then Some(Quoted("role") + " is required") else None
    case Some(x) =>
      if ParseRole(x).None? then Some(Quoted("role") + " must be one of [Admin, Candidate, Client]")
      else None
  }

  /** An object schema refuses every key it does not list. */
  function UnknownKeyError(extra: seq<string>): (err: Option<string>)
    ensures err.None? <==> extra == []
  {
    if extra == [] then None else Some(Quoted(extra[0]) + " is not allowed")
  }

  /** The first error of a sequence of checks, in order. */
  function FirstError(errs: seq<Option<string>>): (r: Option<string>)
    ensures r.None? <==> forall i :: 0 <= i < |errs| ==> errs[i].None?
    ensures r.Some? ==> exists i :: 0 <= i < |errs| && errs[i] == r && forall j :: 0 <= j < i ==> errs[j].None?
  {
    if errs == [] then None
    else if errs[0].Some? then errs[0]
    else
      var r := FirstError(errs[1..]);
      assert forall i :: 1 <= i < |errs| ==> errs[i] == errs[1..][i - 1];
      r
  }

  /** What `createUserSchema` demands, stated as one condition. */
  predicate RegistrationOk(r: Registration) {
    && r.email.Some? && ValidEmail(r.email.value)
    && r.password.Some? && |r.password.value| >= 8
    && r.role.Some? && ParseRole(r.role.value).Some?
    && r.name.Some? && |r.name.value| >= 2
    && r.extra == []
  }

  /** `createUserSchema.validate(userData)`: it accepts exactly the inputs that meet the
      schema, and then hands on the input's own fields. */
  function ValidateRegistration(r: Registration): (c: Checked<NewUser>)
    ensures c.Accepted? <==> RegistrationOk(r)
    ensures c.Accepted? ==> c.value == NewUser(r.email.value, r.password.value, ParseRole(r.role.value).value, r.name.value)
  {
    var errs := [EmailError(r.email, true), MinLengthError("password", r.password, 8, true),
                 RoleError(r.role, true), MinLengthError("name", r.name, 2, true),
                 UnknownKeyError(r.extra)];
    match FirstError(errs)
    case Some(m) => Rejected(m)
    case None =>
      assert errs[0].None? && errs[1].None? && errs[2].None? && errs[3].None? && errs[4].None?;
      Accepted(NewUser(r.email.value, r.password.value, ParseRole(r.role.value).value, r.name.value))
  }

  /** What the login schema demands. */
  predicate LoginOk(f: LoginForm) {
    f.email.Some? && ValidEmail(f.email.value) && f.password.Some? && f.password.value != []
  }

  datatype SignIn = SignIn(email: string, password: string)

  function ValidateLogin(f: LoginForm): (c: Checked<SignIn>)
    ensures c.Accepted? <==> LoginOk(f)
    ensures c.Accepted? ==> c.value == SignIn(f.email.value, f.password.value)
  {
    var errs := [EmailError(f.email, true), PresentError("password", f.password)];
    match FirstError(errs)
    case Some(m) => Rejected(m)
    case None =>
      assert errs[0].None? && errs[1].None?;
      Accepted(SignIn(f.email.value, f.password.value))
  }

  /** What `updateUserSchema` demands: every field optional, each present one well-formed,
      and nothing else (so a patch can never carry a password). */
  predicate PatchOk(p: Patch) {
    && (p.email.Some? ==> ValidEmail(p.email.value))
    && (p.name.Some? ==> |p.name.value| >= 2)
    && (p.role.Some? ==> ParseRole(p.role.value).Some?)
    && p.extra == []
  }

  function ValidatePatch(p: Patch): (c: Checked<Changes>)
    ensures c.Accepted? <==> PatchOk(p)
    ensures c.Accepted? ==> c.value.email == p.email && c.value.name == p.name
    ensures c.Accepted? ==> (c.value.role.Some? <==> p.role.Some?)
    ensures c.Accepted? && p.role.Some? ==> c.value.role == ParseRole(p.role.value)
  {
    var errs := [EmailError(p.email, false), MinLengthError("name", p.name, 2, false),
                 RoleError(p.role, false), UnknownKeyError(p.extra)];
    match FirstError(errs)
    case Some(m) => Rejected(m)
    case None =>
      assert errs[0].None? && errs[1].None? && errs[2].None? && errs[3].None?;
      var role := if p.role.Some? then ParseRole(p.role.value) else None;
      Accepted(Changes(p.email, p.name, role))
  }
}
