/** A stand-in for `jsonwebtoken`'s `sign` and `verify`. A token carries the signed claims
    (subject id and role) and the requested lifetime as three '.'-separated fields, each
    escaped so that a token never holds '.' inside a field and never holds a space, as a
    base64url-encoded JWT does not. Signature, secret and the expiry clock are not modelled:
    `Verify` accepts exactly the strings `Sign` produces. */
module Tokens {
  import opened Base
  import opened Text
  import opened UserModel

  /** The payload the service signs: `{id, role}`. */
  datatype Claims = Claims(id: string, role: Role)

  /** What `jwt.verify` gives back: the claims and the lifetime they were signed with. */
  datatype Decoded = Decoded(claims: Claims, expiresIn: string)

  function EscapeChar(c: char): string {
    if c == '%' then "%p"
    else if c == '.' then "%d"
    else if c == ' ' then "%s"
    else [c]
  }

  /** The escaped form holds neither the field separator nor a space. */
  function Escape(s: string): (r: string)
    ensures '.' !in r && ' ' !in r
  {
    if s == [] then [] else EscapeChar(s[0]) + Escape(s[1..])
  }

  function Unescape(s: string): Option<string>
    decreases |s|
  {
    if s == [] then Some([])
    else if s[0] == '%' then
      if |s| < 2 then None
      else
        var c := if s[1] == 'p' then Some('%') else if s[1] == 'd' then Some('.')
                 else if s[1] == 's' then Some(' ') else None;
        match (c, Unescape(s[2..]))
        case (Some(x), Some(rest)) => Some([x] + rest)
        case _ => None
    else if s[0] == '.' || s[0] == ' ' then None
    else
      match Unescape(s[1..])
      case Some(rest) => Some([s[0]] + rest)
      case None => None
  }

  lemma UnescapeChar(c: char, t: string)
    ensures Unescape(EscapeChar(c) + t) ==
      match Unescape(t) case Some(rest) => Some([c] + rest) case None => None
  {
    var e := EscapeChar(c) + t;
    if c == '%' || c == '.' || c == ' ' {
      assert e[2..] == t;
    } else {
      assert e[1..] == t;
    }
  }

  /** Escaping loses nothing: unescaping gives the field back. */
  lemma {:induction false} UnescapeEscape(s: string)
    ensures Unescape(Escape(s)) == Some(s)
  {
    if s != [] {
      UnescapeEscape(s[1..]);
      UnescapeChar(s[0], Escape(s[1..]));
      assert [s[0]] + s[1..] == s;
    }
  }

  function Fields(c: Claims, expiresIn: string): seq<string> {
    [Escape(c.id), Escape(RoleName(c.role)), Escape(expiresIn)]
  }

  /** `jwt.sign(claims, secret, {expiresIn})`: a token without spaces, so that it survives
      being sent as the second word of a `Bearer` header. */
  function Sign(c: Claims, expiresIn: string): (t: string)
    ensures ' ' !in t
  {
    var fields := Fields(c, expiresIn);
    JoinExcludes(fields, '.', ' ');
    Join(fields, '.')
  }

  /** `jwt.verify(token, secret)`: the decoded payload, or `None` where `verify` throws. */
  function Verify(t: string): Option<Decoded> {
    var fields := Split(t, '.');
    if |fields| != 3 then None
    else
      match (Unescape(fields[0]), Unescape(fields[1]), Unescape(fields[2]))
      case (Some(id), Some(roleName), Some(expiresIn)) =>
        (match ParseRole(roleName)
         case Some(role) => Some(Decoded(Claims(id, role), expiresIn))
         case None => None)
      case _ => None
  }

  /** The signer's contract: verifying a token gives back what was signed. */
  lemma VerifySign(c: Claims, expiresIn: string)
    ensures Verify(Sign(c, expiresIn)) == Some(Decoded(c, expiresIn))
  {
    var fields := Fields(c, expiresIn);
    assert Sign(c, expiresIn) == Join(fields, '.');
    SplitJoin(fields, '.');
    assert Split(Sign(c, expiresIn), '.') == fields;
    UnescapeEscape(c.id);
    UnescapeEscape(RoleName(c.role));
    UnescapeEscape(expiresIn);
    assert ParseRole(RoleName(c.role)) == Some(c.role);
  }
}
