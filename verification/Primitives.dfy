// The cryptography the store relies on, idealised: MAC tags are free terms over the bytes fed to the MAC,
// name hashes are 32-byte strings without collisions among the names in use, and decryption is a function
// that undoes encryption, whose ciphertexts are longer than the data by a constant.

module Primitives {

  import opened Basics

  const HASH_SIZE := 32  // HMAC_RESULT_LENGTH
  const KEY_SIZE := 32

  // sgx_hmac256 over a whole stream, when it signs a document.
  datatype Tag = Mac(stream: Bytes)

  // An HMAC computation in progress: sgx_hmac256_init, _update, _final.
  class HmacContext {
    var fed: Bytes

    constructor ()
      ensures fed == []
    {
      fed := [];
    }

    method Update(data: Bytes)
      modifies this
      ensures fed == old(fed) + data
    {
      fed := fed + data;
    }

    method Final() returns (tag: Tag)
      ensures tag == Mac(fed)
    {
      tag := Mac(fed);
    }
  }

  // HMAC and AES-GCM under the built-in keys; `encrypt` takes the nonce it draws as an argument.
  datatype Crypto = Crypto(hmac: Bytes -> Bytes,
                           encrypt: (nat, Bytes) -> Bytes, decrypt: Bytes -> Option<Bytes>, overhead: nat)

  // The primitives, the names that clients use and the length of their keys.
  datatype World = World(crypto: Crypto, groupNames: set<Bytes>, userNames: set<Bytes>, keySize: nat) {

    // hash_name: the salt, if any, is fed after the name.
    function HashName(name: Bytes, salt: Option<Bytes>): Bytes {
      crypto.hmac(if salt.Some? then name + salt.value else name)
    }

    function GroupHash(group: Bytes): Bytes { HashName(group, None) }

    function UserHash(user: Bytes): Bytes { HashName(user, None) }

    function MemberHash(group: Bytes, user: Bytes): Bytes { HashName(user, Some(group)) }

    ghost predicate Hashed(x: Bytes) {
      || x in groupNames
      || x in userNames
      || exists g, u :: g in groupNames && u in userNames && x == u + g
    }

    ghost predicate Ideal() {
      && (forall x :: |crypto.hmac(x)| == HASH_SIZE)
      && (forall x, y :: Hashed(x) && Hashed(y) && crypto.hmac(x) == crypto.hmac(y) ==> x == y)
      && (forall nonce, data :: Encrypts(data, crypto.encrypt(nonce, data)))
    }

    // `ct` looks like a result of encrypt_data(data).
    ghost predicate Encrypts(data: Bytes, ct: Bytes) {
      crypto.decrypt(ct) == Some(data) && |ct| == |data| + crypto.overhead
    }

    lemma GroupHashInjective(g1: Bytes, g2: Bytes)
      requires Ideal() && g1 in groupNames && g2 in groupNames && GroupHash(g1) == GroupHash(g2)
      ensures g1 == g2
    {
      assert Hashed(g1) && Hashed(g2);
    }

    lemma UserHashInjective(u1: Bytes, u2: Bytes)
      requires Ideal() && u1 in userNames && u2 in userNames && UserHash(u1) == UserHash(u2)
      ensures u1 == u2
    {
      assert Hashed(u1) && Hashed(u2);
    }

    /** The salt is a common suffix within one group, so the salted hash separates its users. */
    lemma MemberHashInjective(g: Bytes, u1: Bytes, u2: Bytes)
      requires Ideal() && g in groupNames && u1 in userNames && u2 in userNames
      requires MemberHash(g, u1) == MemberHash(g, u2)
      ensures u1 == u2
    {
      assert Hashed(u1 + g) && Hashed(u2 + g);
      assert u1 == (u1 + g)[..|u1|] && u2 == (u2 + g)[..|u2|];
      assert |u1| == |u2|;
    }

    /** The salt follows the name without a separator: a salted hash is the plain hash of the two. */
    lemma SaltIsAppended(g: Bytes, u: Bytes)
      ensures MemberHash(g, u) == UserHash(u + g)
    {
    }

    /** The salt counts: one user has different hashes in different groups. */
    lemma MemberHashTellsGroups(g1: Bytes, g2: Bytes, u: Bytes)
      requires Ideal() && g1 in groupNames && g2 in groupNames && u in userNames
      requires MemberHash(g1, u) == MemberHash(g2, u)
      ensures g1 == g2
    {
      assert Hashed(u + g1) && Hashed(u + g2);
      assert g1 == (u + g1)[|u|..] && g2 == (u + g2)[|u|..];
    }
  }

  // ---------------------------------------------------------------- the idealisation can be met

  // A name of fewer than HASH_SIZE bytes, padded to HASH_SIZE behind its length.
  function Padded(x: Bytes): (h: Bytes)
    ensures |h| == HASH_SIZE
    ensures |x| < HASH_SIZE ==> h[0] == |x| && h[1..1 + |x|] == x
  {
    if |x| < HASH_SIZE then [|x|] + x + Zeros(HASH_SIZE - 1 - |x|) else Zeros(HASH_SIZE)
  }

  function PaddingWorld(groupNames: set<Bytes>, userNames: set<Bytes>): World {
    World(Crypto(Padded, (nonce, data) => data, data => Some(data), 0), groupNames, userNames, KEY_SIZE)
  }

  /** The assumptions contradict nothing: there is an ideal world for any sets of names of up to 15 bytes. */
  lemma IdealWorldsExist(groupNames: set<Bytes>, userNames: set<Bytes>)
    requires forall x :: x in groupNames || x in userNames ==> |x| < 16
    ensures PaddingWorld(groupNames, userNames).Ideal()
  {
    var w := PaddingWorld(groupNames, userNames);
    forall x | w.Hashed(x) ensures |x| < HASH_SIZE && Padded(x)[1..1 + Padded(x)[0]] == x {
    }
  }
}
