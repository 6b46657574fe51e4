/**
 * Authenticator records and the `custom:authCreds` user attribute that stores
 * them, shared by the challenge generator and the response verifier.
 */
module Credentials {
  import opened Wrappers
  import Seqs

  type Byte = b: int | 0 <= b < 256
  type Bytes = seq<Byte>

  /** The transports a WebAuthn authenticator may advertise. */
  datatype Transport = Usb | Ble | Nfc | Internal

  /** One enrolled public-key credential; `transports` may be absent in the stored JSON. */
  datatype Authenticator = Authenticator(
    credentialID: Bytes,
    credentialPublicKey: Bytes,
    counter: nat,
    transports: Option<seq<Transport>>)

  /**
   * The user attributes the handlers read. `authCreds` is `None` when the
   * attribute is absent or the empty string (both falsy), and `Some(list)`
   * when it is a non-empty string holding the JSON array `list` (possibly `[]`).
   */
  datatype UserAttributes = UserAttributes(email: string, authCreds: Option<seq<Authenticator>>)

  /** The stored list as the verifier parses it: a falsy attribute reads as `'[]'`. */
  function StoredList(authCreds: Option<seq<Authenticator>>): (r: seq<Authenticator>)
    ensures authCreds.None? ==> r == []
    ensures authCreds.Some? ==> r == authCreds.value
  {
    authCreds.GetOr([])
  }

  /** One record as re-built after parsing: bytes copied, missing transports become `[]`. */
  function Normalise(a: Authenticator): Authenticator {
    Authenticator(a.credentialID, a.credentialPublicKey, a.counter, Some(a.transports.GetOr([])))
  }

  /** Every record carries a transports list. */
  predicate IsNormalised(list: seq<Authenticator>) {
    forall i :: 0 <= i < |list| ==> list[i].transports.Some?
  }

  /** The decoded list: same length, order, bytes and counters; absent transports replaced by `[]`. */
  function Decode(stored: seq<Authenticator>): (r: seq<Authenticator>)
    ensures |r| == |stored|
    ensures forall i :: 0 <= i < |stored| ==>
      && r[i].credentialID == stored[i].credentialID
      && r[i].credentialPublicKey == stored[i].credentialPublicKey
      && r[i].counter == stored[i].counter
      && r[i].transports == (if stored[i].transports.Some? then stored[i].transports else Some([]))
    ensures IsNormalised(r)
  {
    Seqs.Map(Normalise, stored)
  }

  /** Decoding a list that is already decoded changes nothing: a normalised write reads back as itself. */
  lemma DecodeNormalisedIsIdentity(list: seq<Authenticator>)
    requires IsNormalised(list)
    ensures Decode(list) == list
  {
    var d := Decode(list);
    forall i | 0 <= i < |list| ensures d[i] == list[i] {
      assert list[i].transports.Some?;
    }
  }

  /** Decoding distributes over appending a record. */
  lemma DecodeAppend(stored: seq<Authenticator>, a: Authenticator)
    ensures Decode(stored + [a]) == Decode(stored) + [Normalise(a)]
  {
    Seqs.MapAppend(Normalise, stored, [a]);
  }
}
