/**
 The key registry of key_store.py. The persisted registry (the JSON file that
 `_load_keys` reads and `_save_keys` writes whole) is an immutable map from key
 id to record; every operation loads it, and the registry it returns is the one
 left on disk afterwards.
 */
module KeyStore {
  import opened Base
  import opened Cipher

  /** One registry entry. `encryptedKey` is the key material sealed under the master key. */
  datatype KeyRecord = KeyRecord(version: int, encryptedKey: string, created: string, revoked: bool)

  type Registry = map<string, KeyRecord>

  /** The `ValueError`s the registry raises, and Fernet's `InvalidToken` on stored material. */
  datatype KeyError =
    | KeyExists(id: string)
    | KeyNotFound(id: string)
    | KeyRevoked(id: string)
    | MaterialUnreadable(id: string)

  /**
   What one generate-and-store draws from the environment: the fresh key from
   `generate_key`, the randomness of the storage encryption, and the
   `datetime.now()` stamp.
   */
  datatype Draw = Draw(key: string, nonce: string, stamp: string)

  /** An id whose record exists and is not revoked. */
  predicate Active(keys: Registry, id: string) {
    id in keys && !keys[id].revoked
  }

  /** The unrevoked record holding `d.key` sealed under the master key, as create and rotate build it. */
  function Sealed(c: Crypto, master: string, version: int, d: Draw): KeyRecord {
    KeyRecord(version, c.seal(master, d.nonce, d.key), d.stamp, false)
  }

  /** `create_key`: refuses an active id; an absent or revoked id gets a fresh version-1 record. */
  function CreateKey(c: Crypto, master: string, keys: Registry, id: string, d: Draw): (r: Result<Registry, KeyError>)
    ensures r.Err? <==> id in keys && !keys[id].revoked
    ensures r.Err? ==> r.error == KeyExists(id)
    ensures r.Ok? ==> r.value.Keys == keys.Keys + {id}
    ensures r.Ok? ==> r.value[id].version == 1 && !r.value[id].revoked
    ensures r.Ok? ==> r.value[id].encryptedKey == c.seal(master, d.nonce, d.key) && r.value[id].created == d.stamp
    ensures r.Ok? ==> forall other :: other in keys && other != id ==> r.value[other] == keys[other]
  {
    if Active(keys, id) then Err(KeyExists(id))
    else Ok(keys[id := Sealed(c, master, 1, d)])
  }

  /** `get_key`: the key material of an active id, unsealed with the master key. */
  function GetKey(c: Crypto, master: string, keys: Registry, id: string): (r: Result<string, KeyError>)
    ensures id !in keys ==> r == Err(KeyNotFound(id))
    ensures id in keys && keys[id].revoked ==> r == Err(KeyRevoked(id))
    ensures r.Ok? <==> Active(keys, id) && c.open(master, keys[id].encryptedKey).Some?
    ensures r.Ok? ==> Some(r.value) == c.open(master, keys[id].encryptedKey)
    ensures Active(keys, id) && c.open(master, keys[id].encryptedKey).None? ==> r == Err(MaterialUnreadable(id))
  {
    if id !in keys then Err(KeyNotFound(id))
    else if keys[id].revoked then Err(KeyRevoked(id))
    else match c.open(master, keys[id].encryptedKey)
      case None => Err(MaterialUnreadable(id))
      case Some(material) => Ok(material)
  }

  /**
   `rotate_key` as written: it builds the next-version record and then returns
   without saving it, so the registry on disk is the one it loaded and the
   record it built is lost.
   */
  function RotateKey(c: Crypto, master: string, keys: Registry, id: string, d: Draw): (r: Result<Registry, KeyError>)
    ensures r.Err? <==> id !in keys
    ensures r.Err? ==> r.error == KeyNotFound(id)
    ensures r.Ok? ==> r.value == keys
  {
    if id !in keys then Err(KeyNotFound(id))
    else Ok(keys)
  }

  /** `rotate_key` as its documentation intends: the next-version record is saved. */
  function RotateKeyPersisted(c: Crypto, master: string, keys: Registry, id: string, d: Draw): (r: Result<Registry, KeyError>)
    ensures r.Err? <==> id !in keys
    ensures r.Err? ==> r.error == KeyNotFound(id)
    ensures r.Ok? ==> r.value.Keys == keys.Keys
    ensures r.Ok? ==> r.value[id].version == keys[id].version + 1 && !r.value[id].revoked
    ensures r.Ok? ==> r.value[id].encryptedKey == c.seal(master, d.nonce, d.key) && r.value[id].created == d.stamp
    ensures r.Ok? ==> forall other :: other in keys && other != id ==> r.value[other] == keys[other]
  {
    if id !in keys then Err(KeyNotFound(id))
    else Ok(keys[id := Sealed(c, master, keys[id].version + 1, d)])
  }

  /** `revoke_key`: sets the revoked flag of an existing record and touches nothing else. */
  function RevokeKey(keys: Registry, id: string): (r: Result<Registry, KeyError>)
    ensures r.Err? <==> id !in keys
    ensures r.Err? ==> r.error == KeyNotFound(id)
    ensures r.Ok? ==> r.value.Keys == keys.Keys && r.value[id].revoked
    ensures r.Ok? ==> var prior := keys[id]; var after := r.value[id];
      after.version == prior.version && after.encryptedKey == prior.encryptedKey && after.created == prior.created
    ensures r.Ok? ==> forall other :: other in keys && other != id ==> r.value[other] == keys[other]
  {
    if id !in keys then Err(KeyNotFound(id))
    else Ok(keys[id := keys[id].(revoked := true)])
  }

  /** Every record in the registry has a positive version. */
  predicate Versioned(keys: Registry) {
    forall id :: id in keys ==> keys[id].version >= 1
  }

  /** Creating a key and reading it back yields exactly the freshly generated key. */
  lemma CreateThenGet(c: Crypto, master: string, keys: Registry, id: string, d: Draw)
    requires Sound(c)
    requires !Active(keys, id)
    ensures CreateKey(c, master, keys, id, d).Ok?
    ensures GetKey(c, master, CreateKey(c, master, keys, id, d).value, id) == Ok(d.key)
  {
  }

  /** A revoked id becomes readable again only through create_key, which replaces its material. */
  lemma CreateRevivesRevoked(c: Crypto, master: string, keys: Registry, id: string, d: Draw)
    requires Sound(c)
    requires id in keys && keys[id].revoked
    ensures GetKey(c, master, keys, id) == Err(KeyRevoked(id))
    ensures CreateKey(c, master, keys, id, d).Ok?
    ensures GetKey(c, master, CreateKey(c, master, keys, id, d).value, id) == Ok(d.key)
  {
  }

  /** After a successful revoke, reading the key fails with the revoked error. */
  lemma RevokeThenGet(c: Crypto, master: string, keys: Registry, id: string)
    requires id in keys
    ensures GetKey(c, master, RevokeKey(keys, id).value, id) == Err(KeyRevoked(id))
  {
  }

  /** Revoking twice leaves the same registry as revoking once. */
  lemma RevokeIdempotent(keys: Registry, id: string)
    ensures RevokeKey(keys, id).Ok? ==> RevokeKey(RevokeKey(keys, id).value, id) == RevokeKey(keys, id)
  {
    if id in keys {
      var once := RevokeKey(keys, id).value;
      assert once[id].(revoked := true) == once[id];
      assert once[id := once[id]] == once;
    }
  }

  /** A revoked record stays revoked, and unreadable, through revoke and the unsaved rotate. */
  lemma RevokedSurvivesRevokeAndRotate(c: Crypto, master: string, keys: Registry, id: string, other: string, d: Draw)
    requires id in keys && keys[id].revoked
    ensures RevokeKey(keys, other).Ok? ==> GetKey(c, master, RevokeKey(keys, other).value, id) == Err(KeyRevoked(id))
    ensures RotateKey(c, master, keys, other, d).Ok? ==> GetKey(c, master, RotateKey(c, master, keys, other, d).value, id) == Err(KeyRevoked(id))
  {
  }

  /**
   The rotation is lost: rotate_key reports success, yet the registry it leaves
   still holds the old version and reads back the old material, where the saved
   rotation would hold the next version.
   */
  lemma RotateLosesNewVersion(c: Crypto, master: string, keys: Registry, id: string, d: Draw)
    requires id in keys
    ensures RotateKey(c, master, keys, id, d).Ok?
    ensures RotateKey(c, master, keys, id, d).value[id] != RotateKeyPersisted(c, master, keys, id, d).value[id]
    ensures RotateKey(c, master, keys, id, d).value[id].version == keys[id].version
    ensures GetKey(c, master, RotateKey(c, master, keys, id, d).value, id) == GetKey(c, master, keys, id)
  {
  }

  /** A concrete registry on which rotating "k" leaves it at version 1. */
  lemma RotateLosesNewVersionExample(c: Crypto, master: string, d: Draw)
    ensures var keys := map["k" := KeyRecord(1, "token", "2024-01-01T00:00:00", false)];
      && RotateKey(c, master, keys, "k", d) == Ok(keys)
      && RotateKey(c, master, keys, "k", d).value["k"].version == 1
      && RotateKeyPersisted(c, master, keys, "k", d).value["k"].version == 2
  {
  }

  /**
   The corrected rotation advances the version by exactly one and reads back the
   newly generated key, which differs from the old one whenever the draw is new.
   */
  lemma RotatePersistedAdvances(c: Crypto, master: string, keys: Registry, id: string, d: Draw)
    requires Sound(c)
    requires Active(keys, id)
    requires c.open(master, keys[id].encryptedKey) != Some(d.key)
    ensures RotateKeyPersisted(c, master, keys, id, d).Ok?
    ensures RotateKeyPersisted(c, master, keys, id, d).value[id].version == keys[id].version + 1
    ensures GetKey(c, master, RotateKeyPersisted(c, master, keys, id, d).value, id) == Ok(d.key)
    ensures GetKey(c, master, RotateKeyPersisted(c, master, keys, id, d).value, id) != GetKey(c, master, keys, id)
  {
  }

  /** The corrected rotation resets the revoked flag, so it makes a revoked key readable again. */
  lemma RotatePersistedRevives(c: Crypto, master: string, keys: Registry, id: string, d: Draw)
    requires Sound(c)
    requires id in keys && keys[id].revoked
    ensures GetKey(c, master, RotateKeyPersisted(c, master, keys, id, d).value, id) == Ok(d.key)
  {
  }

  /** Every registry operation keeps all versions positive. */
  lemma OperationsKeepVersioned(c: Crypto, master: string, keys: Registry, id: string, d: Draw)
    requires Versioned(keys)
    ensures CreateKey(c, master, keys, id, d).Ok? ==> Versioned(CreateKey(c, master, keys, id, d).value)
    ensures RotateKey(c, master, keys, id, d).Ok? ==> Versioned(RotateKey(c, master, keys, id, d).value)
    ensures RotateKeyPersisted(c, master, keys, id, d).Ok? ==> Versioned(RotateKeyPersisted(c, master, keys, id, d).value)
    ensures RevokeKey(keys, id).Ok? ==> Versioned(RevokeKey(keys, id).value)
  {
  }
}
