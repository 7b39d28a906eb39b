/** The credential vault of src/_root/main/Security.tsx. Passwords are kept
    encrypted under an RSA public key held in browser storage; the matching
    private key lives only in a file the user downloads, and loading that
    file unlocks the vault for decrypting single entries. */
module Vault {
  import opened Wrappers
  import opened Base64
  import opened JsText
  import Lists

  datatype VaultItem = VaultItem(id: string, site: string, login: string, encryptedPass: string)

  /** An example entry that a fresh key pair is seeded with. */
  datatype Template = Template(site: string, login: string, pass: string)

  const Templates: seq<Template> := [
    Template("Netflix", "utilizador@exemplo.com", "Senha@Netflix123"),
    Template("Gmail", "teste.seguro@gmail.com", "Google#Pass!2024"),
    Template("Amazon", "comprador_online", "PrimeSecure$99")
  ]

  /** A key handle as WebCrypto returns it. */
  datatype CryptoKey = CryptoKey(handle: nat)

  /** The WebCrypto operations the vault calls, as the outcome each call
      would have; `None` is a rejected promise. The UTF-8 encoding of the
      plain text is part of `encrypt` and its decoding part of `decrypt`. */
  datatype Crypto = Crypto(
    importPkcs8: seq<byte> -> Option<CryptoKey>,
    importSpki: seq<byte> -> Option<CryptoKey>,
    encrypt: (CryptoKey, string) -> Option<seq<byte>>,
    decrypt: (CryptoKey, seq<byte>) -> Option<string>)

  /** Storing a character into a `Uint8Array` keeps its code modulo 256. */
  function ToUint8(c: char): (b: byte)
    ensures c as int < 256 ==> b as int == c as int
  {
    (c as int % 256) as byte
  }

  /** `new Uint8Array(s.split("").map(c => c.charCodeAt(0)))`. */
  function CharCodes(s: string): (r: seq<byte>)
    ensures |r| == |s| && forall i :: 0 <= i < |s| ==> r[i] == ToUint8(s[i])
  {
    if s == [] then [] else [ToUint8(s[0])] + CharCodes(s[1..])
  }

  /** Reading back the characters `String.fromCharCode` made of bytes gives
      those bytes. */
  lemma CharCodesOfLatin1(b: seq<byte>)
    ensures CharCodes(Latin1(b)) == b
  {
    var s := Latin1(b);
    assert forall i :: 0 <= i < |b| ==> ToUint8(s[i]) == b[i];
  }

  /** `atob` of Base64 text, then the character codes as bytes. */
  function ReadBase64(text: string): Option<seq<byte>> {
    match Atob(text)
    case None => None
    case Some(binary) => Some(CharCodes(binary))
  }

  /** Reading Base64 through `atob` and the character codes is exactly
      `Decode`, the forgiving-base64 decode: the same texts are rejected and
      the same bytes read. */
  lemma ReadBase64IsDecode(text: string)
    ensures ReadBase64(text) == Decode(text)
  {
    if Decode(text).Some? {
      CharCodesOfLatin1(Decode(text).value);
    }
  }

  /** What the vault writes as Base64 it reads back to the same bytes. */
  lemma ReadBase64Encode(b: seq<byte>)
    ensures ReadBase64(Encode(b)) == Some(b)
  {
    AtobBtoa(b);
    CharCodesOfLatin1(b);
  }

  /** `encryptWithKey`: the ciphertext in Base64. The vault writes bytes as
      `btoa(String.fromCharCode(...bytes))`, which `Base64.BtoaLatin1` shows
      is `Encode` of those bytes. */
  function EncryptWithKey(crypto: Crypto, key: CryptoKey, text: string): Option<string> {
    match crypto.encrypt(key, text)
    case None => None
    case Some(cipher) => Some(Encode(cipher))
  }

  /** The bytes of a key file: its text trimmed and Base64-decoded. */
  function KeyFileBytes(text: string): (r: Option<seq<byte>>)
  {
    ReadBase64(Trim(text))
  }

  /** The key file `generateKeys` downloads reads back to the exported key. */
  lemma KeyFileRoundTrip(der: seq<byte>)
    ensures KeyFileBytes(Encode(der)) == Some(der)
  {
    var e := Encode(der);
    EncodeAlphabet(der);
    if e != [] {
      assert IsBase64Char(e[0]) || e[0] == '=';
      assert IsBase64Char(e[|e| - 1]) || e[|e| - 1] == '=';
    }
    TrimKeepsUnpadded(e);
    ReadBase64Encode(der);
  }

  /** The private key a chosen file yields, if the file decodes and
      WebCrypto accepts it as PKCS #8. */
  function ImportedKey(crypto: Crypto, file: Option<string>): Option<CryptoKey> {
    match file
    case None => None
    case Some(text) =>
      match Decode(Trim(text))
      case None => None
      case Some(der) => crypto.importPkcs8(der)
  }

  /** The key file `generateKeys` downloads imports back to the key it
      exported. */
  lemma KeyFileImports(crypto: Crypto, der: seq<byte>)
    ensures ImportedKey(crypto, Some(Encode(der))) == crypto.importPkcs8(der)
  {
    KeyFileRoundTrip(der);
    ReadBase64IsDecode(Trim(Encode(der)));
  }

  /** The encrypted examples for a new key pair, one per template and in
      template order, or `None` when one encryption fails. */
  function ExampleItems(crypto: Crypto, key: CryptoKey, templates: seq<Template>, ids: seq<string>)
    : (r: Option<seq<VaultItem>>)
    requires |ids| == |templates|
    ensures r.Some? <==> forall i :: 0 <= i < |templates| ==> crypto.encrypt(key, templates[i].pass).Some?
    ensures r.Some? ==> |r.value| == |templates| && forall i :: 0 <= i < |templates| ==>
      r.value[i] == VaultItem(ids[i], templates[i].site, templates[i].login,
                              Encode(crypto.encrypt(key, templates[i].pass).value))
  {
    if templates == [] then Some([])
    else
      match EncryptWithKey(crypto, key, templates[0].pass)
      case None => None
      case Some(cipher) =>
        match ExampleItems(crypto, key, templates[1..], ids[1..])
        case None =>
          assert exists i :: 0 <= i < |templates[1..]| && crypto.encrypt(key, templates[1..][i].pass).None?;
          None
        case Some(rest) => Some([VaultItem(ids[0], templates[0].site, templates[0].login, cipher)] + rest)
  }

  /** Items that match the templates one by one are the examples. */
  lemma ExampleItemsOf(crypto: Crypto, key: CryptoKey, templates: seq<Template>, ids: seq<string>,
                       items: seq<VaultItem>)
    requires |ids| == |templates| == |items|
    requires forall j :: 0 <= j < |templates| ==> EncryptWithKey(crypto, key, templates[j].pass).Some?
    requires forall j :: 0 <= j < |templates| ==>
      items[j] == VaultItem(ids[j], templates[j].site, templates[j].login,
                            EncryptWithKey(crypto, key, templates[j].pass).value)
    ensures ExampleItems(crypto, key, templates, ids) == Some(items)
  {
    var e := ExampleItems(crypto, key, templates, ids);
    assert e.value == items;
  }

  /** `decryptPass` on the map of revealed passwords: a truthy entry is
      hidden again; otherwise the decrypted text is added, and a failed
      decode or decryption changes nothing. */
  function RevealStep(crypto: Crypto, key: CryptoKey, revealed: map<string, string>,
                      id: string, encrypted: string): (r: map<string, string>)
    ensures id in revealed && revealed[id] != "" ==> r == revealed - {id}
    ensures !(id in revealed && revealed[id] != "") ==>
      match ReadBase64(encrypted)
      case None => r == revealed
      case Some(cipher) =>
        match crypto.decrypt(key, cipher)
        case None => r == revealed
        case Some(plain) => r == revealed[id := plain]
    ensures forall other :: other != id ==> (other in r <==> other in revealed)
    ensures forall other :: other != id && other in r ==> r[other] == revealed[other]
  {
    if id in revealed && revealed[id] != "" then revealed - {id}
    else
      match ReadBase64(encrypted)
      case None => revealed
      case Some(cipher) =>
        match crypto.decrypt(key, cipher)
        case None => revealed
        case Some(plain) => revealed[id := plain]
  }

  /** `items.filter(i => i.id !== id)`. */
  function RemoveItem(items: seq<VaultItem>, id: string): (r: seq<VaultItem>)
    ensures forall it :: it in r <==> it in items && it.id != id
    ensures |r| <= |items|
  {
    Lists.Filter(items, (it: VaultItem) => it.id != id)
  }

  /** A key pair whose private key decrypts what its public key encrypted. */
  ghost predicate Matching(crypto: Crypto, pub: CryptoKey, priv: CryptoKey) {
    forall text :: crypto.encrypt(pub, text).Some? ==>
      crypto.decrypt(priv, crypto.encrypt(pub, text).value) == Some(text)
  }

  /** Revealing text that decodes to the cipher of `pass` under the
      matching key shows `pass`; the next click hides it unless it is empty. */
  lemma RevealDecoded(crypto: Crypto, pub: CryptoKey, priv: CryptoKey,
                      revealed: map<string, string>, id: string, pass: string, enc: string)
    requires Matching(crypto, pub, priv)
    requires crypto.encrypt(pub, pass).Some? && ReadBase64(enc) == Some(crypto.encrypt(pub, pass).value)
    requires id !in revealed || revealed[id] == ""
    ensures var once := RevealStep(crypto, priv, revealed, id, enc);
      once == revealed[id := pass] &&
      (pass != "" ==> RevealStep(crypto, priv, once, id, enc) == revealed - {id}) &&
      (pass == "" ==> RevealStep(crypto, priv, once, id, enc) == once)
  {
    var once := revealed[id := pass];
    assert RevealStep(crypto, priv, revealed, id, enc) == once;
    if pass != "" {
      assert once - {id} == revealed - {id};
    }
  }

  /** A password stored under the public key and revealed with the matching
      private key shows the password that was typed; a second click hides
      it again unless that password was empty. */
  lemma RevealShowsSavedPassword(crypto: Crypto, pub: CryptoKey, priv: CryptoKey,
                                 revealed: map<string, string>, id: string, pass: string)
    requires Matching(crypto, pub, priv)
    requires EncryptWithKey(crypto, pub, pass).Some?
    requires id !in revealed || revealed[id] == ""
    ensures var enc := EncryptWithKey(crypto, pub, pass).value;
      var once := RevealStep(crypto, priv, revealed, id, enc);
      once == revealed[id := pass] &&
      (pass != "" ==> RevealStep(crypto, priv, once, id, enc) == revealed - {id}) &&
      (pass == "" ==> RevealStep(crypto, priv, once, id, enc) == once)
  {
    var cipher := crypto.encrypt(pub, pass).value;
    ReadBase64Encode(cipher);
    RevealDecoded(crypto, pub, priv, revealed, id, pass, EncryptWithKey(crypto, pub, pass).value);
  }

  /** The page state: the list, the lock, the form, and the two storage slots
      `crypto-vault-v1_items` (the list as JSON) and `crypto-vault-v1_pub_key`. */
  class VaultPage {
    var items: seq<VaultItem>
    var isUnlocked: bool
    var privateKey: Option<CryptoKey>
    var showForm: bool
    var revealed: map<string, string>
    var site: string
    var login: string
    var pass: string
    var storedItems: Option<seq<VaultItem>>
    var storedPubKey: Option<string>

    /** Unlocked exactly when a private key is loaded, passwords are shown
        only while unlocked, and the list on screen is the stored list. */
    ghost predicate Valid()
      reads this
    {
      (isUnlocked <==> privateKey.Some?) &&
      (revealed != map[] ==> isUnlocked) &&
      (match storedItems case Some(saved) => items == saved case None => items == [])
    }

    /** The first render followed by the load effect: the stored list, if
        any, is shown; the vault starts locked with an empty form. */
    constructor (storedItems0: Option<seq<VaultItem>>, storedPubKey0: Option<string>)
      ensures Valid()
      ensures items == storedItems0.GetOr([]) && storedItems == storedItems0 && storedPubKey == storedPubKey0
      ensures !isUnlocked && privateKey == None && revealed == map[] && !showForm
      ensures site == "" && login == "" && pass == ""
    {
      items := storedItems0.GetOr([]);
      isUnlocked := false;
      privateKey := None;
      showForm := false;
      revealed := map[];
      site, login, pass := "", "", "";
      storedItems := storedItems0;
      storedPubKey := storedPubKey0;
    }

    /** The `Uint8Array` filled from the decoded text, one character code per
        element. */
    static method FillCharCodes(binary: string) returns (der: array<byte>)
      ensures fresh(der)
      ensures der[..] == CharCodes(binary)
    {
      der := new byte[|binary|];
      var i := 0;
      while i < |binary|
        invariant 0 <= i <= |binary|
        invariant forall j :: 0 <= j < i ==> der[j] == ToUint8(binary[j])
      {
        der[i] := ToUint8(binary[i]);
        i := i + 1;
      }
    }

    /** `generateKeys`, given the new key pair's public handle and exported
        bytes and an id per template: the public key is stored first, then
        the examples are encrypted in turn; the list and its slot change only
        when all of them succeed. Returns the text of the private key file,
        which is downloaded only when every example encrypted: a rejected
        encryption ends the handler after the public key is stored. */
    method GenerateKeys(crypto: Crypto, publicKey: CryptoKey, privDer: seq<byte>, pubDer: seq<byte>,
                        ids: seq<string>) returns (privPem: Option<string>)
      requires Valid() && |ids| == |Templates|
      modifies this
      ensures Valid()
      ensures storedPubKey == Some(Encode(pubDer))
      ensures privPem.Some? <==> ExampleItems(crypto, publicKey, Templates, ids).Some?
      ensures privPem.Some? ==> privPem.value == Encode(privDer)
      ensures var ex := ExampleItems(crypto, publicKey, Templates, ids);
        ex.Some? ==> items == ex.value && storedItems == Some(ex.value)
      ensures ExampleItems(crypto, publicKey, Templates, ids).None? ==>
        items == old(items) && storedItems == old(storedItems)
      ensures isUnlocked == old(isUnlocked) && privateKey == old(privateKey) && revealed == old(revealed)
      ensures site == old(site) && login == old(login) && pass == old(pass) && showForm == old(showForm)
    {
      var exampleItems := EncryptExamples(crypto, publicKey, Templates, ids);
      StoreKeys(Encode(pubDer), exampleItems);
      privPem := if exampleItems.Some? then Some(Encode(privDer)) else None;
    }

    /** The state update that ends `generateKeys`: the public key text is
        stored and, when every example encrypted, the examples replace the
        list and are stored. */
    method StoreKeys(pubPem: string, exampleItems: Option<seq<VaultItem>>)
      requires Valid()
      modifies this
      ensures Valid()
      ensures storedPubKey == Some(pubPem)
      ensures exampleItems.Some? ==> items == exampleItems.value && storedItems == exampleItems
      ensures exampleItems.None? ==> items == old(items) && storedItems == old(storedItems)
      ensures isUnlocked == old(isUnlocked) && privateKey == old(privateKey) && revealed == old(revealed)
      ensures site == old(site) && login == old(login) && pass == old(pass) && showForm == old(showForm)
    {
      storedPubKey := Some(pubPem);
      if exampleItems.Some? {
        items := exampleItems.value;
        storedItems := exampleItems;
      }
    }

    /** The `for (const m of mockTemplates)` loop: each template encrypted in
        turn and pushed with its id; a failed encryption abandons the loop. */
    static method EncryptExamples(crypto: Crypto, publicKey: CryptoKey, templates: seq<Template>, ids: seq<string>)
      returns (r: Option<seq<VaultItem>>)
      requires |ids| == |templates|
      ensures r == ExampleItems(crypto, publicKey, templates, ids)
    {
      var exampleItems: seq<VaultItem> := [];
      var i := 0;
      while i < |templates|
        invariant 0 <= i <= |templates| && |exampleItems| == i
        invariant forall j :: 0 <= j < i ==> EncryptWithKey(crypto, publicKey, templates[j].pass).Some?
        invariant forall j :: 0 <= j < i ==>
          exampleItems[j] == VaultItem(ids[j], templates[j].site, templates[j].login,
                                       EncryptWithKey(crypto, publicKey, templates[j].pass).value)
      {
        var m := templates[i];
        var encrypted := EncryptWithKey(crypto, publicKey, m.pass);
        if encrypted.None? {
          assert crypto.encrypt(publicKey, templates[i].pass).None?;
          return None;
        }
        exampleItems := exampleItems + [VaultItem(ids[i], m.site, m.login, encrypted.value)];
        i := i + 1;
      }
      ExampleItemsOf(crypto, publicKey, templates, ids, exampleItems);
      r := Some(exampleItems);
    }

    /** The key file's text trimmed, through `atob`, into a byte array. */
    static method ReadKeyFile(text: string) returns (der: Option<seq<byte>>)
      ensures der == KeyFileBytes(text)
    {
      der := None;
      var binary := Atob(Trim(text));
      if binary.Some? {
        var bytes := FillCharCodes(binary.value);
        der := Some(bytes[..]);
      }
    }

    /** The `onload` callback of `handleFileUpload` up to its import: the
        chosen file, if any, read, decoded and imported as the private key. */
    static method ImportKeyFile(crypto: Crypto, file: Option<string>) returns (key: Option<CryptoKey>)
      ensures key == ImportedKey(crypto, file)
    {
      key := None;
      if file.Some? {
        var der := ReadKeyFile(file.value);
        ReadBase64IsDecode(Trim(file.value));
        if der.Some? {
          key := crypto.importPkcs8(der.value);
        }
      }
    }

    /** The rest of the callback: an imported key unlocks the vault; without
        one nothing changes. */
    method KeyLoaded(key: Option<CryptoKey>)
      requires Valid()
      modifies this
      ensures Valid()
      ensures key.Some? ==> privateKey == key && isUnlocked
      ensures key.None? ==> privateKey == old(privateKey) && isUnlocked == old(isUnlocked)
      ensures items == old(items) && storedItems == old(storedItems) && storedPubKey == old(storedPubKey)
      ensures revealed == old(revealed) && showForm == old(showForm)
      ensures site == old(site) && login == old(login) && pass == old(pass)
    {
      if key.Some? {
        privateKey := key;
        isUnlocked := true;
      }
    }

    /** The cipher text `saveNewEntry` would store for `pass`, or `None` when
        the stored public key does not decode, import or encrypt. */
    static function NewEntryCipher(crypto: Crypto, pubRaw: string, pass: string): Option<string> {
      match ReadBase64(pubRaw)
      case None => None
      case Some(bytes) =>
        match crypto.importSpki(bytes)
        case None => None
        case Some(key) => EncryptWithKey(crypto, key, pass)
    }

    /** The cipher text `saveNewEntry` stores: none with an empty field or
        without a stored public key, or when a crypto step fails. */
    static function EntryCipher(crypto: Crypto, site: string, login: string, pass: string,
                                storedPubKey: Option<string>): Option<string>
    {
      if site == "" || login == "" || pass == "" || storedPubKey.None? || storedPubKey.value == "" then None
      else NewEntryCipher(crypto, storedPubKey.value, pass)
    }

    /** `saveNewEntry` with `now` the `Date.now()` text: when there is a
        cipher text the new entry goes first, the list is stored and the form
        closes; otherwise nothing changes. */
    method SaveNewEntry(crypto: Crypto, now: string)
      requires Valid()
      modifies this
      ensures Valid()
      ensures var cipher := EntryCipher(crypto, old(site), old(login), old(pass), old(storedPubKey));
        (cipher.Some? ==>
          items == [VaultItem(now, old(site), old(login), cipher.value)] + old(items) &&
          storedItems == Some(items) && site == "" && login == "" && pass == "" && !showForm) &&
        (cipher.None? ==>
          items == old(items) && storedItems == old(storedItems) &&
          site == old(site) && login == old(login) && pass == old(pass) && showForm == old(showForm))
      ensures storedPubKey == old(storedPubKey) && revealed == old(revealed)
      ensures isUnlocked == old(isUnlocked) && privateKey == old(privateKey)
    {
      StoreEntry(now, EntryCipher(crypto, site, login, pass, storedPubKey));
    }

    /** The state update that ends `saveNewEntry`: with a cipher text the
        entry goes in front, the list is stored and the form is cleared and
        closed; without one nothing changes. */
    method StoreEntry(now: string, cipher: Option<string>)
      requires Valid()
      modifies this
      ensures Valid()
      ensures cipher.Some? ==>
        items == [VaultItem(now, old(site), old(login), cipher.value)] + old(items) &&
        storedItems == Some(items) && site == "" && login == "" && pass == "" && !showForm
      ensures cipher.None? ==>
        items == old(items) && storedItems == old(storedItems) &&
        site == old(site) && login == old(login) && pass == old(pass) && showForm == old(showForm)
      ensures storedPubKey == old(storedPubKey) && revealed == old(revealed)
      ensures isUnlocked == old(isUnlocked) && privateKey == old(privateKey)
    {
      if cipher.None? {
        return;
      }
      var newItems := [VaultItem(now, site, login, cipher.value)] + items;
      items := newItems;
      storedItems := Some(newItems);
      site, login, pass := "", "", "";
      showForm := false;
    }

    /** `decryptPass`: nothing while locked; otherwise one reveal step. */
    method DecryptPass(crypto: Crypto, id: string, encryptedBase64: string)
      requires Valid()
      modifies this
      ensures Valid()
      ensures old(privateKey).None? ==> revealed == old(revealed)
      ensures old(privateKey).Some? ==>
        revealed == RevealStep(crypto, old(privateKey).value, old(revealed), id, encryptedBase64)
      ensures items == old(items) && storedItems == old(storedItems) && storedPubKey == old(storedPubKey)
      ensures isUnlocked == old(isUnlocked) && privateKey == old(privateKey) && showForm == old(showForm)
      ensures site == old(site) && login == old(login) && pass == old(pass)
    {
      if privateKey.None? {
        return;
      }
      revealed := RevealStep(crypto, privateKey.value, revealed, id, encryptedBase64);
    }

    /** `deleteItem`: every entry with the id goes, and the slot is rewritten. */
    method DeleteItem(id: string)
      requires Valid()
      modifies this
      ensures Valid()
      ensures items == RemoveItem(old(items), id) && storedItems == Some(items)
      ensures storedPubKey == old(storedPubKey) && revealed == old(revealed)
      ensures isUnlocked == old(isUnlocked) && privateKey == old(privateKey) && showForm == old(showForm)
      ensures site == old(site) && login == old(login) && pass == old(pass)
    {
      items := RemoveItem(items, id);
      storedItems := Some(items);
    }
  }

  /** A cipher text is only produced for a filled form and a stored public
      key, and it reads back to the bytes the imported key encrypts `pass`
      to. */
  lemma EntryCipherOf(crypto: Crypto, site: string, login: string, pass: string, storedPubKey: Option<string>)
    ensures var c := VaultPage.EntryCipher(crypto, site, login, pass, storedPubKey);
      c.Some? ==>
        site != "" && login != "" && pass != "" && storedPubKey.Some? && storedPubKey.value != "" &&
        ReadBase64(storedPubKey.value).Some? &&
        var key := crypto.importSpki(ReadBase64(storedPubKey.value).value);
        key.Some? && ReadBase64(c.value) == crypto.encrypt(key.value, pass)
  {
    var c := VaultPage.EntryCipher(crypto, site, login, pass, storedPubKey);
    if c.Some? {
      var key := crypto.importSpki(ReadBase64(storedPubKey.value).value);
      ReadBase64Encode(crypto.encrypt(key.value, pass).value);
    }
  }
}
