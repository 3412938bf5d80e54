// Key checks, and the guards of encryption and decryption around the GPGME calls.
module GpgKeys {

  datatype Subkey = Subkey(canEncrypt: bool, isSecret: bool, revoked: bool, expired: bool, disabled: bool)

  /** A key as GPGME shows it; a listed key has a fingerprint. */
  datatype Key =
    | NullKey
    | Key(fingerprint: string, revoked: bool, disabled: bool, expired: bool, hasSecret: bool, canEncrypt: bool,
          subkeys: seq<Subkey>)

  datatype Error =
    | NullKeyError | PrimaryRevoked | PrimaryDisabled | PrimaryExpired | NotSecret | NoSubkeys
    | SubkeyRevoked | SubkeyExpired | SubkeyDisabled | NoCapability
    | NoContext | NoKeys | EmptyData | NotBinary | EmptyPassphrase | Failed | EmptyOutput

  /** true, or the exception thrown instead. */
  datatype Verdict = Capable | Throws(error: Error)

  // ----- what the checks promise

  predicate PrimaryValid(key: Key) {
    key.Key? && !key.revoked && !key.disabled && !key.expired
  }

  predicate SubkeyValid(s: Subkey) {
    !s.revoked && !s.expired && !s.disabled
  }

  /** Subkey i is the first that can encrypt, being secret where that is asked. */
  ghost predicate FirstCapable(subkeys: seq<Subkey>, secret: bool, i: int) {
    && 0 <= i < |subkeys| && Can(subkeys[i], secret)
    && forall j :: 0 <= j < i ==> !Can(subkeys[j], secret)
  }

  predicate Can(s: Subkey, secret: bool) {
    s.canEncrypt && (secret ==> s.isSecret)
  }

  /** The key, or its first capable subkey, can be used to encrypt. */
  ghost predicate UsableToEncrypt(key: Key) {
    PrimaryValid(key) && (key.canEncrypt || exists i :: FirstCapable(key.subkeys, false, i) && SubkeyValid(key.subkeys[i]))
  }

  /** The same with a secret key and a secret subkey. */
  ghost predicate UsableToDecrypt(key: Key) {
    PrimaryValid(key) && key.hasSecret
    && (key.canEncrypt || exists i :: FirstCapable(key.subkeys, true, i) && SubkeyValid(key.subkeys[i]))
  }

  // ----- the checks

  function SubkeyVerdict(s: Subkey): Verdict {
    if s.revoked then Throws(SubkeyRevoked)
    else if s.expired then Throws(SubkeyExpired)
    else if s.disabled then Throws(SubkeyDisabled)
    else Capable
  }

  /** The loop over subkeys: the first capable one decides. */
  function SubkeysVerdict(subkeys: seq<Subkey>, secret: bool): Verdict {
    if subkeys == [] then Throws(NoCapability)
    else if Can(subkeys[0], secret) then SubkeyVerdict(subkeys[0])
    else SubkeysVerdict(subkeys[1..], secret)
  }

  function PrimaryVerdict(key: Key): Verdict {
    if key.NullKey? then Throws(NullKeyError)
    else if key.revoked then Throws(PrimaryRevoked)
    else if key.disabled then Throws(PrimaryDisabled)
    else if key.expired then Throws(PrimaryExpired)
    else Capable
  }

  function EncryptVerdict(key: Key): Verdict {
    var p := PrimaryVerdict(key);
    if p.Throws? then p
    else if key.canEncrypt then Capable
    else if key.subkeys == [] then Throws(NoSubkeys)
    else SubkeysVerdict(key.subkeys, false)
  }

  function DecryptVerdict(key: Key): Verdict {
    var p := PrimaryVerdict(key);
    if p.Throws? then p
    else if !key.hasSecret then Throws(NotSecret)
    else if key.canEncrypt then Capable
    else if key.subkeys == [] then Throws(NoSubkeys)
    else SubkeysVerdict(key.subkeys, true)
  }

  lemma {:induction false} SubkeysVerdictMeans(subkeys: seq<Subkey>, secret: bool)
    ensures SubkeysVerdict(subkeys, secret).Capable? <==> exists i :: FirstCapable(subkeys, secret, i) && SubkeyValid(subkeys[i])
    ensures SubkeysVerdict(subkeys, secret) == Throws(NoCapability) <==> forall s <- subkeys :: !Can(s, secret)
  {
    if subkeys != [] {
      var rest := subkeys[1..];
      if Can(subkeys[0], secret) {
        assert FirstCapable(subkeys, secret, 0);
        assert subkeys[0] in subkeys;
      } else {
        SubkeysVerdictMeans(rest, secret);
        assert forall i :: 0 <= i < |rest| ==> rest[i] == subkeys[i + 1];
        if i :| FirstCapable(rest, secret, i) && SubkeyValid(rest[i]) {
          assert FirstCapable(subkeys, secret, i + 1);
        }
        if i :| FirstCapable(subkeys, secret, i) && SubkeyValid(subkeys[i]) {
          assert FirstCapable(rest, secret, i - 1);
        }
      }
    }
  }

  /** The checks accept exactly the usable keys. */
  lemma VerdictsMean(key: Key)
    ensures EncryptVerdict(key).Capable? <==> UsableToEncrypt(key)
    ensures DecryptVerdict(key).Capable? <==> UsableToDecrypt(key)
  {
    if key.Key? {
      SubkeysVerdictMeans(key.subkeys, false);
      SubkeysVerdictMeans(key.subkeys, true);
    }
  }

  // ----- which error, and when

  lemma {:induction false} FirstDecides(subkeys: seq<Subkey>, secret: bool, i: nat)
    requires FirstCapable(subkeys, secret, i)
    ensures SubkeysVerdict(subkeys, secret) == SubkeyVerdict(subkeys[i])
  {
    if i > 0 {
      assert !Can(subkeys[0], secret);
      assert forall j :: 0 <= j < |subkeys[1..]| ==> subkeys[1..][j] == subkeys[j + 1];
      FirstDecides(subkeys[1..], secret, i - 1);
    }
  }

  /** The first capable subkey, if there is one. */
  lemma {:induction false} SomeFirst(subkeys: seq<Subkey>, secret: bool, s: Subkey) returns (i: nat)
    requires s in subkeys && Can(s, secret)
    ensures FirstCapable(subkeys, secret, i)
  {
    if Can(subkeys[0], secret) {
      i := 0;
    } else {
      i := SomeFirst(subkeys[1..], secret, s);
      assert forall j :: 0 <= j < |subkeys[1..]| ==> subkeys[1..][j] == subkeys[j + 1];
      i := i + 1;
    }
  }

  /** The errors of the loop over subkeys, each with its exact condition. */
  lemma SubkeysThrow(subkeys: seq<Subkey>, secret: bool)
    ensures SubkeysVerdict(subkeys, secret) == Throws(SubkeyRevoked) <==>
              exists i :: FirstCapable(subkeys, secret, i) && subkeys[i].revoked
    ensures SubkeysVerdict(subkeys, secret) == Throws(SubkeyExpired) <==>
              exists i :: FirstCapable(subkeys, secret, i) && !subkeys[i].revoked && subkeys[i].expired
    ensures SubkeysVerdict(subkeys, secret) == Throws(SubkeyDisabled) <==>
              exists i :: FirstCapable(subkeys, secret, i) && !subkeys[i].revoked && !subkeys[i].expired && subkeys[i].disabled
    ensures SubkeysVerdict(subkeys, secret) == Throws(NoCapability) <==> forall s <- subkeys :: !Can(s, secret)
    ensures SubkeysVerdict(subkeys, secret).Throws? ==>
              SubkeysVerdict(subkeys, secret).error in {SubkeyRevoked, SubkeyExpired, SubkeyDisabled, NoCapability}
  {
    SubkeysVerdictMeans(subkeys, secret);
    if s :| s in subkeys && Can(s, secret) {
      var i := SomeFirst(subkeys, secret, s);
      FirstDecides(subkeys, secret, i);
      forall j | FirstCapable(subkeys, secret, j) ensures j == i {
        assert !(j < i) && !(i < j);
      }
    }
  }

  /** Which error a check throws: the first of these that applies, in this order. */
  ghost predicate Explains(key: Key, secret: bool, v: Verdict) {
    && (v == Throws(NullKeyError) <==> key.NullKey?)
    && (v == Throws(PrimaryRevoked) <==> key.Key? && key.revoked)
    && (v == Throws(PrimaryDisabled) <==> key.Key? && !key.revoked && key.disabled)
    && (v == Throws(PrimaryExpired) <==> key.Key? && !key.revoked && !key.disabled && key.expired)
    && (v == Throws(NotSecret) <==> PrimaryValid(key) && secret && !key.hasSecret)
    && (v == Throws(NoSubkeys) <==> OnSubkeys(key, secret) && key.subkeys == [])
    && (v == Throws(NoCapability) <==> OnSubkeys(key, secret) && key.subkeys != [] && forall s <- key.subkeys :: !Can(s, secret))
    && (v == Throws(SubkeyRevoked) <==>
          OnSubkeys(key, secret) && exists i :: FirstCapable(key.subkeys, secret, i) && key.subkeys[i].revoked)
    && (v == Throws(SubkeyExpired) <==>
          OnSubkeys(key, secret)
          && exists i :: FirstCapable(key.subkeys, secret, i) && !key.subkeys[i].revoked && key.subkeys[i].expired)
    && (v == Throws(SubkeyDisabled) <==>
          OnSubkeys(key, secret)
          && exists i :: FirstCapable(key.subkeys, secret, i) && !key.subkeys[i].revoked && !key.subkeys[i].expired && key.subkeys[i].disabled)
    && (v.Throws? ==> v.error in KEY_ERRORS)
  }

  const KEY_ERRORS: set<Error> :=
    {NullKeyError, PrimaryRevoked, PrimaryDisabled, PrimaryExpired, NotSecret, NoSubkeys, NoCapability,
     SubkeyRevoked, SubkeyExpired, SubkeyDisabled}

  /** The primary key is fine but cannot encrypt itself, so its subkeys decide. */
  ghost predicate OnSubkeys(key: Key, secret: bool) {
    PrimaryValid(key) && (secret ==> key.hasSecret) && !key.canEncrypt
  }

  /** Both checks throw exactly the first error that applies. */
  lemma ErrorsMean(key: Key)
    ensures Explains(key, false, EncryptVerdict(key)) && Explains(key, true, DecryptVerdict(key))
  {
    if key.Key? {
      SubkeysThrow(key.subkeys, false);
      SubkeysThrow(key.subkeys, true);
    }
  }

  /** What usable is, field by field. */
  lemma UsableFields(key: Key)
    ensures UsableToEncrypt(key) <==>
              && key.Key? && !key.revoked && !key.disabled && !key.expired
              && (key.canEncrypt
                  || exists i :: 0 <= i < |key.subkeys| && key.subkeys[i].canEncrypt
                       && (forall j :: 0 <= j < i ==> !key.subkeys[j].canEncrypt)
                       && !key.subkeys[i].revoked && !key.subkeys[i].expired && !key.subkeys[i].disabled)
    ensures UsableToDecrypt(key) <==>
              && key.Key? && !key.revoked && !key.disabled && !key.expired && key.hasSecret
              && (key.canEncrypt
                  || exists i :: 0 <= i < |key.subkeys| && key.subkeys[i].canEncrypt && key.subkeys[i].isSecret
                       && (forall j :: 0 <= j < i ==> !(key.subkeys[j].canEncrypt && key.subkeys[j].isSecret))
                       && !key.subkeys[i].revoked && !key.subkeys[i].expired && !key.subkeys[i].disabled)
  {
    if key.Key? {
      forall i | 0 <= i < |key.subkeys|
        ensures FirstCapable(key.subkeys, false, i) <==>
                  key.subkeys[i].canEncrypt && forall j :: 0 <= j < i ==> !key.subkeys[j].canEncrypt
        ensures FirstCapable(key.subkeys, true, i) <==>
                  && key.subkeys[i].canEncrypt && key.subkeys[i].isSecret
                  && forall j :: 0 <= j < i ==> !(key.subkeys[j].canEncrypt && key.subkeys[j].isSecret)
      {
      }
    }
  }

  method CheckSubkeys(subkeys: seq<Subkey>, secret: bool) returns (v: Verdict)
    ensures v == SubkeysVerdict(subkeys, secret)
  {
    for i := 0 to |subkeys|
      invariant SubkeysVerdict(subkeys, secret) == SubkeysVerdict(subkeys[i..], secret)
    {
      var s := subkeys[i];
      assert subkeys[i..][1..] == subkeys[i + 1..];
      if s.canEncrypt && (secret ==> s.isSecret) {
        if s.revoked { return Throws(SubkeyRevoked); }
        if s.expired { return Throws(SubkeyExpired); }
        if s.disabled { return Throws(SubkeyDisabled); }
        return Capable;
      }
    }
    return Throws(NoCapability);
  }

  method CanKeyEncrypt(key: Key) returns (v: Verdict)
    ensures v == EncryptVerdict(key)
    ensures v.Capable? <==> UsableToEncrypt(key)
  {
    VerdictsMean(key);
    if key.NullKey? { return Throws(NullKeyError); }
    if key.revoked { return Throws(PrimaryRevoked); }
    if key.disabled { return Throws(PrimaryDisabled); }
    if key.expired { return Throws(PrimaryExpired); }
    if key.canEncrypt { return Capable; }
    if |key.subkeys| == 0 { return Throws(NoSubkeys); }
    v := CheckSubkeys(key.subkeys, false);
  }

  method CanKeyDecrypt(key: Key) returns (v: Verdict)
    ensures v == DecryptVerdict(key)
    ensures v.Capable? <==> UsableToDecrypt(key)
  {
    VerdictsMean(key);
    if key.NullKey? { return Throws(NullKeyError); }
    if key.revoked { return Throws(PrimaryRevoked); }
    if key.disabled { return Throws(PrimaryDisabled); }
    if key.expired { return Throws(PrimaryExpired); }
    if !key.hasSecret { return Throws(NotSecret); }
    if key.canEncrypt { return Capable; }
    if |key.subkeys| == 0 { return Throws(NoSubkeys); }
    v := CheckSubkeys(key.subkeys, true);
  }

  // ----- encryption and decryption around an oracle

  /** What a GPGME operation gives: an error, or output bytes. */
  datatype Output = OperationError | Bytes(bytes: seq<int>)

  /** GPGME as functions: whether a context starts, and what its operations give. */
  datatype Gpg = Gpg(
    starts: bool,
    encrypts: (seq<Key>, string) -> Output,
    decrypts: (seq<int>, Key, string) -> Output)

  datatype Result = Ok(bytes: seq<int>) | Raised(error: Error)

  /** The first key that cannot encrypt decides. */
  function KeysVerdict(keys: seq<Key>): Verdict {
    if keys == [] then Capable
    else if EncryptVerdict(keys[0]).Throws? then EncryptVerdict(keys[0])
    else KeysVerdict(keys[1..])
  }

  function Encrypt(g: Gpg, keys: seq<Key>, data: string): Result {
    if !g.starts then Raised(NoContext)
    else if keys == [] then Raised(NoKeys)
    else if KeysVerdict(keys).Throws? then Raised(KeysVerdict(keys).error)
    else if data == "" then Raised(EmptyData)
    else
      var out := g.encrypts(keys, data);
      if out.OperationError? then Raised(Failed)
      else if out.bytes == [] then Raised(EmptyOutput)
      else Ok(out.bytes)
  }

  /** The top bit of the first byte marks binary OpenPGP data. */
  predicate IsBinary(data: seq<int>) {
    data != [] && data[0] / 0x80 % 2 == 1
  }

  function Decrypt(g: Gpg, data: seq<int>, key: Key, passphrase: string): Result {
    if !g.starts then Raised(NoContext)
    else if key.NullKey? then Raised(NullKeyError)
    else if data == [] then Raised(EmptyData)
    else if !IsBinary(data) then Raised(NotBinary)
    else if passphrase == "" then Raised(EmptyPassphrase)
    else if DecryptVerdict(key).Throws? then Raised(DecryptVerdict(key).error)
    else
      var out := g.decrypts(data, key, passphrase);
      if out.OperationError? then Raised(Failed)
      else if out.bytes == [] then Raised(EmptyOutput)
      else Ok(out.bytes)
  }

  /** is_passphrase_correct: true, or the exception of its encryption or decryption. */
  function PassphraseVerdict(g: Gpg, key: Key, passphrase: string): Verdict {
    var encrypted := Encrypt(g, [key], "test");
    if encrypted.Raised? then Throws(encrypted.error)
    else
      var decrypted := Decrypt(g, encrypted.bytes, key, passphrase);
      if decrypted.Raised? then Throws(decrypted.error) else Capable
  }

  /** The oracle decrypts, with this passphrase, what it encrypted to this key. */
  predicate OracleAccepts(g: Gpg, key: Key, passphrase: string) {
    var out := g.encrypts([key], "test");
    && out.Bytes? && IsBinary(out.bytes)
    && g.decrypts(out.bytes, key, passphrase).Bytes?
    && g.decrypts(out.bytes, key, passphrase).bytes != []
  }

  lemma {:induction false} KeysVerdictMeans(keys: seq<Key>)
    ensures KeysVerdict(keys).Capable? <==> forall k <- keys :: UsableToEncrypt(k)
  {
    if keys != [] {
      KeysVerdictMeans(keys[1..]);
      VerdictsMean(keys[0]);
      assert forall k <- keys :: k == keys[0] || k in keys[1..];
    }
  }

  /** The error of the first key that cannot be encrypted to. */
  lemma {:induction false} KeysThrow(keys: seq<Key>, e: Error)
    ensures KeysVerdict(keys) == Throws(e) <==>
              exists i :: 0 <= i < |keys| && EncryptVerdict(keys[i]) == Throws(e) && forall j :: 0 <= j < i ==> UsableToEncrypt(keys[j])
  {
    if keys != [] {
      var rest := keys[1..];
      KeysThrow(rest, e);
      VerdictsMean(keys[0]);
      assert forall j :: 0 <= j < |rest| ==> rest[j] == keys[j + 1];
      if EncryptVerdict(keys[0]).Capable? {
        if KeysVerdict(rest) == Throws(e) {
          var i :| 0 <= i < |rest| && EncryptVerdict(rest[i]) == Throws(e) && forall j :: 0 <= j < i ==> UsableToEncrypt(rest[j]);
          forall j | 0 <= j < i + 1 ensures UsableToEncrypt(keys[j]) { if j > 0 { assert keys[j] == rest[j - 1]; } }
          assert EncryptVerdict(keys[i + 1]) == Throws(e);
        }
        if i :| 0 <= i < |keys| && EncryptVerdict(keys[i]) == Throws(e) && forall j :: 0 <= j < i ==> UsableToEncrypt(keys[j]) {
          assert rest[i - 1] == keys[i];
          forall j | 0 <= j < i - 1 ensures UsableToEncrypt(rest[j]) { assert rest[j] == keys[j + 1]; }
        }
      }
    }
  }

  /** Which error encryption throws, in order: no context, no keys, the error of the
      first key that is not usable, no data, and what the operation gives. */
  lemma EncryptRaises(g: Gpg, keys: seq<Key>, data: string)
    ensures var r, usable := Encrypt(g, keys, data), forall k <- keys :: UsableToEncrypt(k);
            && (r == Raised(NoContext) <==> !g.starts)
            && (r == Raised(NoKeys) <==> g.starts && keys == [])
            && (r == Raised(EmptyData) <==> g.starts && keys != [] && usable && data == "")
            && (r == Raised(Failed) <==> g.starts && keys != [] && usable && data != "" && g.encrypts(keys, data).OperationError?)
            && (r == Raised(EmptyOutput) <==> g.starts && keys != [] && usable && data != "" && g.encrypts(keys, data) == Bytes([]))
            && (r.Raised? && r.error in KEY_ERRORS <==> g.starts && keys != [] && !usable)
  {
    KeysVerdictMeans(keys);
    KeysErrors(keys);
  }

  lemma {:induction false} KeysErrors(keys: seq<Key>)
    ensures KeysVerdict(keys).Throws? ==> KeysVerdict(keys).error in KEY_ERRORS
  {
    if keys != [] {
      ErrorsMean(keys[0]);
      KeysErrors(keys[1..]);
    }
  }

  /** Which error decryption throws, in order: no context, no key, no data, data that
      is not binary, no passphrase, a key that is not usable, and what the operation gives. */
  lemma DecryptRaises(g: Gpg, data: seq<int>, key: Key, passphrase: string)
    ensures var r, some := Decrypt(g, data, key, passphrase), g.starts && key.Key?;
            && (r == Raised(NoContext) <==> !g.starts)
            && (r == Raised(NullKeyError) <==> g.starts && key.NullKey?)
            && (r == Raised(EmptyData) <==> some && data == [])
            && (r == Raised(NotBinary) <==> some && data != [] && data[0] / 0x80 % 2 == 0)
            && (r == Raised(EmptyPassphrase) <==> some && IsBinary(data) && passphrase == "")
            && (some && IsBinary(data) && passphrase != "" && !UsableToDecrypt(key) ==> r.Raised? && DecryptVerdict(key) == Throws(r.error))
            && (r == Raised(Failed) <==> Asks(g, data, key, passphrase) && g.decrypts(data, key, passphrase).OperationError?)
            && (r == Raised(EmptyOutput) <==> Asks(g, data, key, passphrase) && g.decrypts(data, key, passphrase) == Bytes([]))
  {
    VerdictsMean(key);
    DecryptErrors(key);
    hide DecryptVerdict, UsableToDecrypt;
  }

  lemma DecryptErrors(key: Key)
    ensures var v := DecryptVerdict(key); v.Throws? ==> v.error in KEY_ERRORS && (v.error == NullKeyError ==> key.NullKey?)
    ensures UsableToDecrypt(key) ==> key.Key?
  {
    ErrorsMean(key);
  }

  /** The operation is reached. */
  ghost predicate Asks(g: Gpg, data: seq<int>, key: Key, passphrase: string) {
    g.starts && UsableToDecrypt(key) && IsBinary(data) && passphrase != ""
  }

  /** Encryption succeeds exactly with a context, keys that can all be encrypted to,
      some data, and some output. */
  lemma EncryptsIff(g: Gpg, keys: seq<Key>, data: string)
    ensures Encrypt(g, keys, data).Ok? <==>
              && g.starts && keys != [] && (forall k <- keys :: UsableToEncrypt(k)) && data != ""
              && g.encrypts(keys, data).Bytes? && g.encrypts(keys, data).bytes != []
  {
    KeysVerdictMeans(keys);
  }

  /** Decryption succeeds exactly with a context, a key that can decrypt, binary data,
      a passphrase, and some output. */
  lemma DecryptsIff(g: Gpg, data: seq<int>, key: Key, passphrase: string)
    ensures Decrypt(g, data, key, passphrase).Ok? <==>
              && g.starts && UsableToDecrypt(key) && IsBinary(data) && passphrase != ""
              && g.decrypts(data, key, passphrase).Bytes? && g.decrypts(data, key, passphrase).bytes != []
  {
    VerdictsMean(key);
  }

  /** The loop over the recipients' keys. */
  method CheckKeys(keys: seq<Key>) returns (v: Verdict)
    ensures v == KeysVerdict(keys)
  {
    for i := 0 to |keys|
      invariant KeysVerdict(keys) == KeysVerdict(keys[i..])
    {
      assert keys[i..][1..] == keys[i + 1..];
      v := CanKeyEncrypt(keys[i]);
      if v.Throws? {
        return;
      }
    }
    return Capable;
  }

  /** A passphrase is accepted exactly for a key usable both ways, when it is not
      empty and the oracle accepts it for that key. */
  lemma PassphraseAcceptedIff(g: Gpg, key: Key, passphrase: string)
    ensures PassphraseVerdict(g, key, passphrase).Capable? <==>
              g.starts && UsableToEncrypt(key) && UsableToDecrypt(key) && passphrase != "" && OracleAccepts(g, key, passphrase)
  {
    EncryptsIff(g, [key], "test");
    var encrypted := Encrypt(g, [key], "test");
    if encrypted.Ok? { DecryptsIff(g, encrypted.bytes, key, passphrase); }
  }
}
