/**
 * The libraries the handlers call into, as values passed to them: bcrypt,
 * jsonwebtoken, zod's e-mail check and JavaScript's `Number`. Their internals
 * are not modelled; `Sound` states the laws the handlers rely on.
 */
module External {
  import opened Wrappers

  datatype Oracles = Oracles(
    hash: string -> string,             // bcrypt.hash(password, 8)
    compare: (string, string) -> bool,  // bcrypt.compare(password, hash)
    sign: int -> string,                // jwt.sign({ id }, secret)
    verify: string -> Option<int>,      // jwt.verify(token, secret).id; None where it throws
    isEmail: string -> bool,            // zod's z.string().email()
    toNumber: string -> Option<int>)    // Number(s); None for NaN

  /**
   * A password matches its own hash, and a signed token is non-empty and
   * verifies back to the id it was signed over.
   */
  ghost predicate Sound(o: Oracles) {
    && (forall p :: o.compare(p, o.hash(p)))
    && (forall id :: o.sign(id) != "" && o.verify(o.sign(id)) == Some(id))
  }
}
