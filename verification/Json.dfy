/** JSON values as the authority protocol sees them.

    SHA-256 digests and Ed25519 signatures are text on the wire.  They are modelled
    symbolically: `Digest(v)` is the text of the digest of `v` and `Signature(k, v)` the
    text of the signature of `v` under key `k`.  Equality of these terms is the ideal
    assumption: digests do not collide and a signature names the value it signs.
 */
module JsonTerms {

  datatype Option<+T> = None | Some(value: T)

  datatype Json =
    | Null
    | Bool(b: bool)
    | Int(i: int)
    | Real(r: real)
    | Str(s: string)
    | Arr(items: seq<Json>)
    | Obj(fields: map<string, Json>)
    | Digest(of: Json)
    | Signature(key: nat, of: Json)

  /** `type(value) is str` */
  predicate IsText(j: Json) {
    j.Str? || j.Digest? || j.Signature?
  }

  /** Python's `==` between a decoded value and an integer: `True == 1` and `1.0 == 1`. */
  predicate EqualsInt(j: Json, n: int) {
    match j
    case Int(i) => i == n
    case Bool(b) => n == (if b then 1 else 0)
    case Real(r) => r == n as real
    case _ => false
  }
}
