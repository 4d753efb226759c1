/** The two repositories the service talks to. The cache (`RedisCacheRepository`) is a map
    from string keys to entries that hold a value and the TTL it was set with; the record
    store (`MongoUserRepository`) is a map from id to account. Neither repository's source
    is part of this model: their operations are stated here as the `User` schema makes them
    behave. */
module Repositories {
  import opened Base
  import opened Text
  import opened Credentials
  import opened UserModel
  import opened Schemas

  /** The public projection `{id, email, role, name}`: every field but the password. */
  datatype View = View(id: string, email: string, role: Role, name: string)

  function Project(a: Account): View {
    View(a.id, a.email, a.role, a.name)
  }

  /** What a cache entry holds: a full record, password hash included, or a projection. */
  datatype UserValue = Record(account: Account) | Profile(view: View)

  datatype Entry = Entry(value: UserValue, ttl: nat)

  /** How `RedisCacheRepository.get` hands back a record that `set` stored. The Redis client
      (`server/src/config/redis.js`) stores strings, so the record goes through JSON. Read
      back as `PlainJson`, it is a plain object with the record's fields and without the
      `User` document's methods, `comparePassword` among them. Read back as `Revived`, it is
      made a `User` document again, methods included. Which of the two the repository does is
      not part of this model, so the service is stated for both. */
  datatype Codec = PlainJson | Revived

  /** The TTL, in seconds, of every entry the service sets. */
  const Ttl: nat := 3600

  const IdPrefix: string := "user:id:"
  const EmailPrefix: string := "user:email:"

  /** A cache key. The service only ever uses two key families, `user:id:<id>` and
      `user:email:<email>`; a key is modelled by its family and its suffix, and `KeyText`
      spells it out as the string Redis sees. */
  datatype Key = IdKey(id: string) | EmailKey(email: string)

  function KeyText(k: Key): string {
    match k
    case IdKey(id) => IdPrefix + id
    case EmailKey(email) => EmailPrefix + email
  }

  /** No id key is spelled like an e-mail key: the prefixes differ at their sixth character. */
  lemma FamiliesDiffer(id: string, email: string)
    ensures KeyText(IdKey(id)) != KeyText(EmailKey(email))
  {
    assert KeyText(IdKey(id))[5] == 'i' && KeyText(EmailKey(email))[5] == 'e';
  }

  /** Modelling keys by family and suffix loses nothing: two keys are the same string
      exactly when they are the same key, so the two families never collide and each key
      names one id or one e-mail string. */
  lemma KeyTextInjective(k1: Key, k2: Key)
    ensures KeyText(k1) == KeyText(k2) <==> k1 == k2
  {
    if k1.IdKey? && k2.EmailKey? {
      FamiliesDiffer(k1.id, k2.email);
    } else if k1.EmailKey? && k2.IdKey? {
      FamiliesDiffer(k2.id, k1.email);
    } else if KeyText(k1) == KeyText(k2) {
      var t := KeyText(k1);
      if k1.IdKey? {
        assert k1.id == t[|IdPrefix|..] == k2.id;
      } else {
        assert k1.email == t[|EmailPrefix|..] == k2.email;
      }
    }
  }

  /** The start of MongoDB's message for an insert or update that breaks a unique index;
      the server goes on to name the collection, the index and the key, which the model
      leaves out. */
  const DuplicateKey: string := "E11000 duplicate key error"

  type Store = map<string, Account>
  type Cache = map<Key, Entry>

  /** What the store guarantees: each record sits under its own id, conforms to the schema,
      and no two records share an e-mail (the unique index). */
  ghost predicate StoreValid(s: Store) {
    && (forall id :: id in s ==> s[id].id == id && Conforms(s[id]))
    && (forall i, j :: i in s && j in s && s[i].email == s[j].email ==> i == j)
  }

  /** No record other than `except` holds `email`. */
  predicate EmailFree(s: Store, email: string, except: string) {
    forall other :: other in s && other != except ==> s[other].email != email
  }

  /** `findUserByEmail(email)`: the query value goes through the schema's setters, so the
      lookup is by the normalized e-mail. */
  ghost function FindByEmail(s: Store, email: string): (r: Option<Account>)
    ensures r.Some? ==> r.value in s.Values && r.value.email == Normalize(email)
    ensures r.None? <==> forall id :: id in s ==> s[id].email != Normalize(email)
  {
    if exists id :: id in s && s[id].email == Normalize(email) then
      var id :| id in s && s[id].email == Normalize(email);
      Some(s[id])
    else
      None
  }

  /** With unique e-mails the lookup finds the one record that has the address. */
  lemma FindByEmailUnique(s: Store, email: string, id: string)
    requires StoreValid(s)
    requires id in s && s[id].email == Normalize(email)
    ensures FindByEmail(s, email) == Some(s[id])
  {
    var r := FindByEmail(s, email);
    var k :| k in s && s[k] == r.value;
    assert s[k].email == s[id].email;
  }

  /** `findUserById(id)`. */
  function FindById(s: Store, id: string): Option<Account> {
    if id in s then Some(s[id]) else None
  }

  /** `createUser(data)`, that is `new User(data).save()`: the setters normalize e-mail and
      name, the `required` validators run, the pre-save hook hashes the password, and the
      insert fails on a taken id or e-mail (the unique indexes). Failures are not mapped to
      a status: they surface as faults. */
  function CreateRecord(s: Store, data: NewUser, id: string, now: int): (r: Outcome<Account>)
    ensures r.Err? == false
  {
    var doc := Account(id, Normalize(data.email), data.password, data.role, Trim(data.name), now);
    if doc.email == [] || doc.password == [] || doc.name == [] then
      Fault(ValidationFailed)
    else if id in s || !EmailFree(s, doc.email, id) then
      Fault(DuplicateKey)
    else
      Ok(doc.(password := PasswordAfterSave(doc.password, true)))
  }

  /** The create path's effect on the store: it succeeds exactly when the normalized fields
      are present and both id and e-mail are free, the new record conforms to the schema and
      keeps the store valid, and the record accepts exactly the plaintext it was made from. */
  lemma CreateRecordSpec(s: Store, data: NewUser, id: string, now: int)
    requires StoreValid(s)
    ensures CreateRecord(s, data, id, now).Ok? <==>
      && Normalize(data.email) != [] && data.password != [] && Trim(data.name) != []
      && id !in s && EmailFree(s, Normalize(data.email), id)
    ensures CreateRecord(s, data, id, now).Ok? ==>
      var a := CreateRecord(s, data, id, now).value;
      && a == Account(id, Normalize(data.email), Hash(data.password), data.role, Trim(data.name), now)
      && Conforms(a)
      && StoreValid(s[id := a])
      && (forall p :: ComparePassword(a, p) <==> p == data.password)
  {
    var a := Account(id, Normalize(data.email), Hash(data.password), data.role, Trim(data.name), now);
    if CreateRecord(s, data, id, now).Ok? {
      assert CreateRecord(s, data, id, now).value == a;
      NormalizeSpec(data.email);
      assert Conforms(a);
      InsertKeepsValid(s, a);
      forall p
        ensures ComparePassword(a, p) <==> p == data.password
      {
        CompareHash(p, data.password);
      }
    }
  }

  /** Writing a conforming record under its own id keeps the store valid as long as no other
      record holds its e-mail. */
  lemma InsertKeepsValid(s: Store, a: Account)
    requires StoreValid(s) && Conforms(a) && EmailFree(s, a.email, a.id)
    ensures StoreValid(s[a.id := a])
  {
    var t := s[a.id := a];
    forall i, j | i in t && j in t && t[i].email == t[j].email
      ensures i == j
    {
      if i != a.id && j != a.id {
        assert s[i].email == s[j].email;
      }
    }
  }

  /** The patch applied by `updateUser(id, userData)` through the schema's setters. */
  function ApplyChanges(a: Account, ch: Changes): Account {
    a.(email := if ch.email.Some? then Normalize(ch.email.value) else a.email,
       name := if ch.name.Some? then Trim(ch.name.value) else a.name,
       role := if ch.role.Some? then ch.role.value else a.role)
  }

  /** `updateUser(id, userData)` (`findByIdAndUpdate` returning the new document): `None`
      for an unknown id, a fault when the new e-mail belongs to another record. The update
      path applies the setters but not the validators. */
  function UpdateRecord(s: Store, id: string, ch: Changes): Outcome<Option<Account>> {
    if id !in s then Ok(None)
    else
      var a := ApplyChanges(s[id], ch);
      if !EmailFree(s, a.email, id) then Fault(DuplicateKey)
      else Ok(Some(a))
  }

  /** An update of a valid e-mail keeps the store valid; it changes neither the id, nor the
      password hash, nor the creation time. */
  lemma UpdateRecordSpec(s: Store, id: string, ch: Changes)
    requires StoreValid(s)
    requires ch.email.Some? ==> ValidEmail(ch.email.value)
    ensures UpdateRecord(s, id, ch).Ok? <==> id in s ==> EmailFree(s, ApplyChanges(s[id], ch).email, id)
    ensures UpdateRecord(s, id, ch) == Ok(None) <==> id !in s
    ensures UpdateRecord(s, id, ch).Ok? && id in s ==>
      var a := UpdateRecord(s, id, ch).value.value;
      && a.id == id && a.password == s[id].password && a.createdAt == s[id].createdAt
      && StoreValid(s[id := a])
  {
    if id in s && UpdateRecord(s, id, ch).Ok? {
      var a := ApplyChanges(s[id], ch);
      assert UpdateRecord(s, id, ch).value.value == a;
      if ch.email.Some? {
        NormalizeSpec(ch.email.value);
        ValidEmailNormalizes(ch.email.value);
      }
      assert Conforms(a);
      InsertKeepsValid(s, a);
    }
  }
}
