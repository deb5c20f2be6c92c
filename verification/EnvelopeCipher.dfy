/**
 Envelope encryption over an ideal authenticated cipher: opening yields the
 plaintext for exactly the key, nonce and associated data it was sealed with.
 */
module EnvelopeCipher {
  import opened Outcomes

  type Secret = nat
  type Nonce = nat

  /** An authenticated ciphertext, opaque except to `Unseal`. */
  datatype Sealed<P, A> = Sealed(key: Secret, nonce: Nonce, aad: A, plain: P)

  function Unseal<P, A(==)>(c: Sealed<P, A>, key: Secret, nonce: Nonce, aad: A): Option<P> {
    if c.key == key && c.nonce == nonce && c.aad == aad then Some(c.plain) else None
  }

  datatype MasterKey = MasterKey(id: string, secret: Secret)

  type Wrapped = Sealed<Secret, (string, string)>
  type Body = Sealed<string, string>

  datatype Envelope = Envelope(
    version: int, algorithm: string, keyId: string,
    dataNonce: Nonce, wrapNonce: Nonce, wrapped: Wrapped, body: Body)

  datatype CipherError = Unsupported | OtherKey | NotAuthentic

  const VERSION: int := 1
  const ALGORITHM: string := "AES-256-GCM"

  /** The data key is bound to the master key's name and to the place the envelope is stored in. */
  function WrappingAad(keyId: string, aad: string): (string, string) {
    (keyId, aad)
  }

  function Encrypt(
    master: MasterKey, plain: string, aad: string, dataKey: Secret, dataNonce: Nonce, wrapNonce: Nonce): Envelope
  {
    Envelope(
      VERSION, ALGORITHM, master.id, dataNonce, wrapNonce,
      Sealed(master.secret, wrapNonce, WrappingAad(master.id, aad), dataKey),
      Sealed(dataKey, dataNonce, aad, plain))
  }

  predicate Supported(e: Envelope) {
    e.version == VERSION && e.algorithm == ALGORITHM
  }

  function Decrypt(master: MasterKey, e: Envelope, aad: string): Result<string, CipherError> {
    if !Supported(e) then Err(Unsupported)
    else if e.keyId != master.id then Err(OtherKey)
    else
      match Unseal(e.wrapped, master.secret, e.wrapNonce, WrappingAad(master.id, aad))
      case None => Err(NotAuthentic)
      case Some(dataKey) =>
        match Unseal(e.body, dataKey, e.dataNonce, aad)
        case None => Err(NotAuthentic)
        case Some(plain) => Ok(plain)
  }

  /** Moves an envelope to another master key without touching its body; one already there is left alone. */
  function Rewrap(
    current: MasterKey, e: Envelope, aad: string, target: MasterKey, wrapNonce: Nonce): Result<Envelope, CipherError>
  {
    if !Supported(e) then Err(Unsupported)
    else if e.keyId == target.id then Ok(e)
    else if e.keyId != current.id then Err(OtherKey)
    else
      match Unseal(e.wrapped, current.secret, e.wrapNonce, WrappingAad(current.id, aad))
      case None => Err(NotAuthentic)
      case Some(dataKey) =>
        Ok(e.(keyId := target.id, wrapNonce := wrapNonce,
              wrapped := Sealed(target.secret, wrapNonce, WrappingAad(target.id, aad), dataKey)))
  }

  lemma {:induction false} DecryptUndoesEncrypt(
    master: MasterKey, plain: string, aad: string, dataKey: Secret, dataNonce: Nonce, wrapNonce: Nonce,
    other: MasterKey, place: string)
    ensures Decrypt(other, Encrypt(master, plain, aad, dataKey, dataNonce, wrapNonce), place)
         == if other.id != master.id then Err(OtherKey)
            else if other != master || place != aad then Err(NotAuthentic)
            else Ok(plain)
  {
  }

  /** A rewrapped envelope says under the target what it said under the current key, to nobody else, and at the same place only. */
  lemma {:induction false} RewrapKeepsMeaning(
    current: MasterKey, e: Envelope, aad: string, target: MasterKey, wrapNonce: Nonce)
    requires current.id != target.id && e.keyId == current.id
    ensures Rewrap(current, e, aad, target, wrapNonce).Err? ==> Decrypt(current, e, aad).Err?
    ensures Rewrap(current, e, aad, target, wrapNonce).Ok? ==>
              var moved := Rewrap(current, e, aad, target, wrapNonce).value;
              && Decrypt(target, moved, aad) == Decrypt(current, e, aad)
              && Decrypt(current, moved, aad) == Err(OtherKey)
              && moved.body == e.body
              && Rewrap(current, moved, aad, target, wrapNonce) == Ok(moved)
  {
  }

  /**
   The name of a key is not the key. An envelope already moved to a target is
   accepted as it is by a rerun whose target has the same name and other bytes,
   and stays unreadable for it: the rerun helps if and only if the bytes are equal.
   */
  lemma {:induction false} RerunNeedsTheSameBytes(
    current: MasterKey, e: Envelope, aad: string, target: MasterKey, again: MasterKey, wrapNonce: Nonce)
    requires current.id != target.id && again.id == target.id
    requires e.keyId == target.id && Decrypt(target, e, aad).Ok?
    ensures Rewrap(current, e, aad, again, wrapNonce) == Ok(e)
    ensures Decrypt(again, e, aad).Ok? <==> again.secret == target.secret
  {
  }
}
