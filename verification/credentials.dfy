/** An abstract stand-in for bcrypt.

    A digest remembers the salt it was made with and the password it hides. Nothing
    here is one-way: the model only needs the two facts the handlers rely on, namely
    that a password verifies against its own hash and no other password does. */
module Credentials {

  datatype Digest = Digest(salt: nat, secret: string)

  /** bcrypt.compare(password, digest): rehash the password with the salt stored in
      the digest and compare the results. */
  function Verify(password: string, d: Digest): (ok: bool)
    ensures ok <==> d == Digest(d.salt, password)
  {
    d.secret == password
  }

  /** bcrypt.hash(password, 10). The salt is random per call in the library,
      so here it is supplied by the caller. */
  function Hash(password: string, salt: nat): (d: Digest)
    ensures Verify(password, d)
    ensures forall other :: other != password ==> !Verify(other, d)
    ensures d.salt == salt
  {
    Digest(salt, password)
  }

  /** Hashing the same password twice with different salts gives different digests,
      and both still verify. */
  lemma SaltedHashesDiffer(password: string, salt1: nat, salt2: nat)
    requires salt1 != salt2
    ensures Hash(password, salt1) != Hash(password, salt2)
    ensures Verify(password, Hash(password, salt1)) && Verify(password, Hash(password, salt2))
  {
  }
}
