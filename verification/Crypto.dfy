/** Key wrapping over an abstract cipher, key derivation and password hash. */
module Crypto {
  import opened Wrappers

  type Bytes = seq<bv8>

  const KEY_LEN := 32
  const NONCE_LEN := 12

  /** The primitives, known only by name. */
  datatype Primitives = Primitives(
    seal: (Bytes, Bytes, Bytes) -> Bytes,           // key, nonce, plaintext
    open: (Bytes, Bytes, Bytes) -> Option<Bytes>,   // key, nonce, ciphertext
    recoveryKey: string -> Bytes,                   // HKDF with the recovery label
    serverKey: string -> Bytes,                     // HKDF with the server label
    hash: (string, Bytes) -> string)                // Argon2 under a salt

  /** The one assumption: a sealed text opens under its own key and nonce. */
  ghost predicate Sound(c: Primitives) {
    forall k, n, p :: |n| == NONCE_LEN ==> c.open(k, n, c.seal(k, n, p)) == Some(p)
  }

  /** `open`: a nonce of another length is an error. */
  function Open(c: Primitives, key: Bytes, nonce: Bytes, ciphertext: Bytes): Option<Bytes> {
    if |nonce| != NONCE_LEN then None else c.open(key, nonce, ciphertext)
  }

  /** A data key is exactly 32 bytes. */
  function AsKey(plaintext: Option<Bytes>): Option<Bytes> {
    if plaintext.Some? && |plaintext.value| == KEY_LEN then plaintext else None
  }

  /** `wrap_data_key` under the nonce drawn for it. */
  function WrapDataKey(c: Primitives, recoveryKey: string, nonce: Bytes, dataKey: Bytes): (Bytes, Bytes) {
    (nonce, c.seal(c.recoveryKey(recoveryKey), nonce, dataKey))
  }

  /** `unwrap_data_key` */
  function UnwrapDataKey(c: Primitives, recoveryKey: string, nonce: Bytes, wrapped: Bytes): Option<Bytes> {
    AsKey(Open(c, c.recoveryKey(recoveryKey), nonce, wrapped))
  }

  /** `wrap_data_key_for_server` */
  function WrapDataKeyForServer(c: Primitives, seed: string, nonce: Bytes, dataKey: Bytes): (Bytes, Bytes) {
    (nonce, c.seal(c.serverKey(seed), nonce, dataKey))
  }

  /** `unwrap_data_key_for_server` */
  function UnwrapDataKeyForServer(c: Primitives, seed: string, nonce: Bytes, wrapped: Bytes): Option<Bytes> {
    AsKey(Open(c, c.serverKey(seed), nonce, wrapped))
  }

  /** What is drawn at random when a user is about to be created. */
  datatype Draw = Draw(recoveryKey: string, dataKey: Bytes, wrapNonce: Bytes, serverNonce: Bytes, salt: Bytes)

  predicate GoodDraw(d: Draw) {
    |d.dataKey| == KEY_LEN && |d.wrapNonce| == NONCE_LEN && |d.serverNonce| == NONCE_LEN
  }

  /** The key columns of a user row. */
  datatype Keys = Keys(recoveryHash: string, wrapped: Bytes, serverNonce: Bytes, serverWrapped: Bytes)

  /** What the sign-in handlers store: `nonce || wrapped` in one column. */
  function StoredKeys(c: Primitives, seed: string, d: Draw): Keys {
    var (wrapNonce, wrapped) := WrapDataKey(c, d.recoveryKey, d.wrapNonce, d.dataKey);
    var (serverNonce, serverWrapped) := WrapDataKeyForServer(c, seed, d.serverNonce, d.dataKey);
    Keys(c.hash(d.recoveryKey, d.salt), wrapNonce + wrapped, serverNonce, serverWrapped)
  }

  /** `recoveryKey` is the key of the row: its hash is stored, and the stored wrapping opens
      under it to the data key that the server's wrapping opens to. */
  ghost predicate Unlocks(c: Primitives, seed: string, recoveryKey: string, k: Keys) {
    && (exists salt :: k.recoveryHash == c.hash(recoveryKey, salt))
    && |k.wrapped| >= NONCE_LEN
    && var viaKey := UnwrapDataKey(c, recoveryKey, k.wrapped[..NONCE_LEN], k.wrapped[NONCE_LEN..]);
       viaKey.Some? && viaKey == UnwrapDataKeyForServer(c, seed, k.serverNonce, k.serverWrapped)
  }

  /** A wrapped key is unwrapped exactly when the nonce has 12 bytes and the text opens, under the
      key derived from the recovery key, to 32 bytes. */
  lemma UnwrapIff(c: Primitives, recoveryKey: string, nonce: Bytes, wrapped: Bytes, dataKey: Bytes)
    ensures UnwrapDataKey(c, recoveryKey, nonce, wrapped) == Some(dataKey)
       <==> |nonce| == 12 && |dataKey| == 32 && c.open(c.recoveryKey(recoveryKey), nonce, wrapped) == Some(dataKey)
  {
  }

  lemma UnwrapForServerIff(c: Primitives, seed: string, nonce: Bytes, wrapped: Bytes, dataKey: Bytes)
    ensures UnwrapDataKeyForServer(c, seed, nonce, wrapped) == Some(dataKey)
       <==> |nonce| == 12 && |dataKey| == 32 && c.open(c.serverKey(seed), nonce, wrapped) == Some(dataKey)
  {
  }

  /** Both wrappings of a freshly drawn data key open to it: the first 12 bytes of the stored
      wrapping are its nonce, the rest opens under the recovery key, and the server's under the seed. */
  lemma StoredKeysUnlock(c: Primitives, seed: string, d: Draw)
    requires Sound(c) && GoodDraw(d)
    ensures Unlocks(c, seed, d.recoveryKey, StoredKeys(c, seed, d))
    ensures var k := StoredKeys(c, seed, d);
      && k.recoveryHash == c.hash(d.recoveryKey, d.salt)
      && k.wrapped[..12] == d.wrapNonce
      && c.open(c.recoveryKey(d.recoveryKey), d.wrapNonce, k.wrapped[12..]) == Some(d.dataKey)
      && k.serverNonce == d.serverNonce
      && c.open(c.serverKey(seed), d.serverNonce, k.serverWrapped) == Some(d.dataKey)
  {
    var k := StoredKeys(c, seed, d);
    assert k.wrapped[..NONCE_LEN] == d.wrapNonce;
    assert k.wrapped[NONCE_LEN..] == c.seal(c.recoveryKey(d.recoveryKey), d.wrapNonce, d.dataKey);
  }
}
