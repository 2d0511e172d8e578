/**
 * The settings frame of ui/settings_frame.py: the auto-lock drop-down and
 * its mapping between labels and seconds, the change-PIN flow, and the
 * encrypted backup and restore of the token records.
 *
 * PBKDF2, AES-GCM, Base64, UTF-8 and the `json` module are not modelled;
 * they are the fields of a `Primitives` value, and the round-trip laws a
 * correct implementation of them obeys are the predicate `Faithful`.
 * File dialogs, message boxes and file I/O are parameters: the path the
 * dialog returned, the text read from the file, the dialogs' answers.
 */
module Settings {
  import opened Wrappers
  import opened Json
  import opened SecureStorage
  import AppLock
  import Session

  // ---------------------------------------------------------------------
  // Constants

  const Pbkdf2Iterations := 390000
  const SaltSizeBytes := 16
  const AesKeySizeBytes := 32
  const AesNonceSizeBytes := 12
  const BackupVersion := "1.0_encrypted"

  type byte = AppLock.byte

  /** A key as `PBKDF2HMAC(length=32)` derives it. */
  type AesKey = k: seq<byte> | |k| == AesKeySizeBytes witness seq(AesKeySizeBytes, i => 0 as byte)

  /** A nonce as `os.urandom(12)` draws it for a backup. */
  type Nonce = n: seq<byte> | |n| == AesNonceSizeBytes witness seq(AesNonceSizeBytes, i => 0 as byte)

  /**
   * The library calls of the backup and restore handlers.  `deriveKey` is
   * PBKDF2-HMAC-SHA256 with `Pbkdf2Iterations` rounds on the UTF-8 of the
   * password and the salt; `encrypt`/`decrypt` are AES-GCM without
   * associated data (`decrypt` is `None` when the tag does not check or the
   * nonce is unusable); `b64decode` is `None` on malformed input; `loads` is
   * `None` where `json.loads` raises `JSONDecodeError`; `decodeUtf8` is
   * `None` on invalid UTF-8.
   */
  datatype Primitives = Primitives(
    deriveKey: (seq<byte>, seq<byte>) -> AesKey,
    encrypt: (AesKey, seq<byte>, seq<byte>) -> seq<byte>,
    decrypt: (AesKey, seq<byte>, seq<byte>) -> Option<seq<byte>>,
    b64encode: seq<byte> -> string,
    b64decode: string -> Option<seq<byte>>,
    dumps: Json -> string,
    loads: string -> Option<Json>,
    encodeUtf8: string -> seq<byte>,
    decodeUtf8: seq<byte> -> Option<string>)

  /**
   * What correct implementations promise: decryption under the same key
   * and nonce inverts encryption, Base64, JSON and UTF-8 decode what they
   * encode, a JSON text is never empty and neither is the UTF-8 of a
   * non-empty string.
   */
  ghost predicate Faithful(p: Primitives) {
    && (forall k, n, m :: p.decrypt(k, n, p.encrypt(k, n, m)) == Some(m))
    && (forall b :: p.b64decode(p.b64encode(b)) == Some(b))
    && (forall j :: p.loads(p.dumps(j)) == Some(j))
    && (forall j :: p.dumps(j) != "")
    && (forall s :: p.decodeUtf8(p.encodeUtf8(s)) == Some(s))
    && (forall s :: s != "" ==> p.encodeUtf8(s) != [])
  }

  // ---------------------------------------------------------------------
  // Auto-lock options

  /** The drop-down's options in their order: label and seconds. */
  const AutoLockOptions: seq<(string, int)> := [
    ("Disabled", 0),
    ("1 Minute", 60),
    ("5 Minutes", 300),
    ("15 Minutes", 900),
    ("30 Minutes", 1800),
    ("1 Hour", 3600)]

  /** The label shown when the stored timeout is none of the options. */
  const DefaultDisplay := "5 Minutes"

  /** `options.get(text)`: the seconds of the option with this label. */
  function SecondsOf(opts: seq<(string, int)>, text: string): Option<int> {
    if opts == [] then None
    else if opts[0].0 == text then Some(opts[0].1)
    else SecondsOf(opts[1..], text)
  }

  /** The search of `_load_and_set_auto_lock_display`: the first option with these seconds. */
  function DisplayIn(opts: seq<(string, int)>, seconds: int): string {
    if opts == [] then DefaultDisplay
    else if opts[0].1 == seconds then opts[0].0
    else DisplayIn(opts[1..], seconds)
  }

  /** `self.auto_lock_options.get(text, DEFAULT_AUTO_LOCK_SECONDS)` */
  function LabelSeconds(text: string): int {
    SecondsOf(AutoLockOptions, text).GetOr(DefaultAutoLockSeconds)
  }

  /** The label the drop-down shows for a stored timeout. */
  function DisplayLabel(seconds: int): string {
    DisplayIn(AutoLockOptions, seconds)
  }

  predicate HasLabel(opts: seq<(string, int)>, text: string) {
    exists i :: 0 <= i < |opts| && opts[i].0 == text
  }

  predicate HasSeconds(opts: seq<(string, int)>, seconds: int) {
    exists i :: 0 <= i < |opts| && opts[i].1 == seconds
  }

  predicate LabelsDistinct(opts: seq<(string, int)>) {
    forall i, j :: 0 <= i < j < |opts| ==> opts[i].0 != opts[j].0
  }

  predicate SecondsDistinct(opts: seq<(string, int)>) {
    forall i, j :: 0 <= i < j < |opts| ==> opts[i].1 != opts[j].1
  }

  /** With distinct labels, looking up an option's label finds that option's seconds. */
  lemma {:induction false} SecondsOfFinds(opts: seq<(string, int)>, i: nat)
    requires LabelsDistinct(opts) && i < |opts|
    ensures SecondsOf(opts, opts[i].0) == Some(opts[i].1)
  {
    if i > 0 {
      assert opts[0].0 != opts[i].0;
      assert LabelsDistinct(opts[1..]) by {
        forall a, b | 0 <= a < b < |opts| - 1 ensures opts[1..][a].0 != opts[1..][b].0 {
          assert opts[1..][a] == opts[a + 1] && opts[1..][b] == opts[b + 1];
        }
      }
      SecondsOfFinds(opts[1..], i - 1);
      assert opts[1..][i - 1] == opts[i];
    }
  }

  /** A label no option carries has no seconds. */
  lemma {:induction false} SecondsOfMissing(opts: seq<(string, int)>, text: string)
    requires !HasLabel(opts, text)
    ensures SecondsOf(opts, text).None?
  {
    if opts != [] {
      assert opts[0].0 != text;
      assert !HasLabel(opts[1..], text) by {
        forall i | 0 <= i < |opts| - 1 ensures opts[1..][i].0 != text {
          assert opts[1..][i] == opts[i + 1];
        }
      }
      SecondsOfMissing(opts[1..], text);
    }
  }

  /** With distinct seconds, the display search finds an option's own label. */
  lemma {:induction false} DisplayInFinds(opts: seq<(string, int)>, i: nat)
    requires SecondsDistinct(opts) && i < |opts|
    ensures DisplayIn(opts, opts[i].1) == opts[i].0
  {
    if i > 0 {
      assert opts[0].1 != opts[i].1;
      assert SecondsDistinct(opts[1..]) by {
        forall a, b | 0 <= a < b < |opts| - 1 ensures opts[1..][a].1 != opts[1..][b].1 {
          assert opts[1..][a] == opts[a + 1] && opts[1..][b] == opts[b + 1];
        }
      }
      DisplayInFinds(opts[1..], i - 1);
      assert opts[1..][i - 1] == opts[i];
    }
  }

  /** A timeout no option has is shown as the default label. */
  lemma {:induction false} DisplayInMissing(opts: seq<(string, int)>, seconds: int)
    requires !HasSeconds(opts, seconds)
    ensures DisplayIn(opts, seconds) == DefaultDisplay
  {
    if opts != [] {
      assert opts[0].1 != seconds;
      assert !HasSeconds(opts[1..], seconds) by {
        forall i | 0 <= i < |opts| - 1 ensures opts[1..][i].1 != seconds {
          assert opts[1..][i] == opts[i + 1];
        }
      }
      DisplayInMissing(opts[1..], seconds);
    }
  }

  lemma AutoLockOptionsDistinct()
    ensures LabelsDistinct(AutoLockOptions) && SecondsDistinct(AutoLockOptions)
  {
  }

  /**
   * Every option maps its label to its seconds and its seconds back to its
   * label; an unknown label saves the default 300 seconds, an unknown
   * timeout shows "5 Minutes", and that default label stands for 300.
   */
  lemma AutoLockOptionsRoundTrip(i: nat, text: string, seconds: int)
    requires i < |AutoLockOptions|
    ensures LabelSeconds(AutoLockOptions[i].0) == AutoLockOptions[i].1
    ensures DisplayLabel(AutoLockOptions[i].1) == AutoLockOptions[i].0
    ensures !HasLabel(AutoLockOptions, text) ==> LabelSeconds(text) == DefaultAutoLockSeconds
    ensures !HasSeconds(AutoLockOptions, seconds) ==> DisplayLabel(seconds) == DefaultDisplay
    ensures LabelSeconds(DefaultDisplay) == DefaultAutoLockSeconds
  {
    AutoLockOptionsDistinct();
    SecondsOfFinds(AutoLockOptions, i);
    DisplayInFinds(AutoLockOptions, i);
    SecondsOfFinds(AutoLockOptions, 2);
    if !HasLabel(AutoLockOptions, text) {
      SecondsOfMissing(AutoLockOptions, text);
    }
    if !HasSeconds(AutoLockOptions, seconds) {
      DisplayInMissing(AutoLockOptions, seconds);
    }
  }

  /**
   * Choosing a label and reopening the settings shows the same label
   * (when the secret store is reachable); an unknown label comes back as
   * "5 Minutes".
   */
  lemma ChosenLabelShownAgain(store: Store, text: string)
    ensures HasLabel(AutoLockOptions, text) ==>
      DisplayLabel(ReadAutoLock(WriteAutoLock(store, true, LabelSeconds(text)), true)) == text
    ensures !HasLabel(AutoLockOptions, text) ==>
      DisplayLabel(ReadAutoLock(WriteAutoLock(store, true, LabelSeconds(text)), true)) == DefaultDisplay
  {
    AutoLockRoundTrip(store, LabelSeconds(text));
    if HasLabel(AutoLockOptions, text) {
      var i :| 0 <= i < |AutoLockOptions| && AutoLockOptions[i].0 == text;
      AutoLockOptionsRoundTrip(i, text, 0);
    } else {
      AutoLockOptionsRoundTrip(2, text, 0);
    }
  }

  // ---------------------------------------------------------------------
  // Backup

  /** The dictionary `get_token_secret` returns, as `json.dumps` sees it. */
  function InfoJson(info: TokenInfo): Json {
    JObj(map[
      "identifier" := JStr(info.identifier),
      "account_name" := info.accountName,
      "issuer_name" := info.issuerName,
      "secret_key" := info.secretKey,
      "type" := info.tokenType,
      "recovery_codes" := info.recoveryCodes])
  }

  function TokensJson(tokens: seq<TokenInfo>): Json {
    JArr(seq(|tokens|, i requires 0 <= i < |tokens| => InfoJson(tokens[i])))
  }

  /** The key derived from a password and a salt. */
  function BackupKey(p: Primitives, password: string, salt: seq<byte>): AesKey {
    p.deriveKey(p.encodeUtf8(password), salt)
  }

  /** The object written to the backup file. */
  function Envelope(p: Primitives, tokens: seq<TokenInfo>, password: string, salt: AppLock.Salt, nonce: Nonce): Json {
    var data := p.encodeUtf8(p.dumps(TokensJson(tokens)));
    var ciphertext := p.encrypt(BackupKey(p, password, salt), nonce, data);
    JObj(map[
      "version" := JStr(BackupVersion),
      "salt" := JStr(p.b64encode(salt)),
      "nonce" := JStr(p.b64encode(nonce)),
      "ciphertext" := JStr(p.b64encode(ciphertext))])
  }

  datatype BackupOutcome =
    | BackupNotChosen      // the save dialog was cancelled
    | BackupError          // get_all_token_data raised
    | NoTokensToBackup
    | BackupCancelled      // no password given
    | BackupWritten(path: string, content: string)

  /**
   * `_handle_backup_tokens` given the path the save dialog returned, the
   * token listing (`None` when it raised), the password dialog's answer and
   * the random salt and nonce.
   */
  function Backup(p: Primitives, path: string, listing: Option<seq<TokenInfo>>, password: Option<string>,
                  salt: AppLock.Salt, nonce: Nonce): BackupOutcome
  {
    if path == "" then BackupNotChosen
    else match listing
      case None => BackupError
      case Some(tokens) =>
        if tokens == [] then NoTokensToBackup
        else if password.None? || password.value == "" then BackupCancelled
        else BackupWritten(path, p.dumps(Envelope(p, tokens, password.value, salt, nonce)))
  }

  /** The four fields `_handle_restore_tokens` demands to be present. */
  predicate IsEnvelope(j: Json) {
    j.JObj? && "version" in j.fields && "salt" in j.fields && "nonce" in j.fields && "ciphertext" in j.fields
  }

  /**
   * A backup is written only for a chosen path, a readable non-empty
   * listing and a non-empty password; what it writes is exactly the four
   * fields, labelled with the version, holding Base64 text.
   */
  lemma BackupShape(p: Primitives, path: string, listing: Option<seq<TokenInfo>>, password: Option<string>,
                    salt: AppLock.Salt, nonce: Nonce)
    ensures Backup(p, path, listing, password, salt, nonce).BackupWritten? <==>
      path != "" && listing.Some? && listing.value != [] && password.Some? && password.value != ""
    ensures path != "" && listing.None? ==> Backup(p, path, listing, password, salt, nonce) == BackupError
    ensures Backup(p, path, listing, password, salt, nonce).BackupWritten? ==>
      var env := Envelope(p, listing.value, password.value, salt, nonce);
      && IsEnvelope(env) && env.fields.Keys == {"version", "salt", "nonce", "ciphertext"}
      && env.fields["version"] == JStr(BackupVersion)
      && env.fields["salt"] == JStr(p.b64encode(salt)) && env.fields["nonce"] == JStr(p.b64encode(nonce))
  {
  }

  // ---------------------------------------------------------------------
  // Restore

  datatype RestoreOutcome =
    | RestoreNotChosen       // the open dialog was cancelled
    | InvalidJson            // JSONDecodeError, of the file or of the decrypted text
    | InvalidFormat          // not an object with the four fields
    | RestoreCancelled       // no password given
    | RestoreError           // any other exception: unreadable file, bad Base64, bad UTF-8
    | DecryptionFailed
    | EmptyPlaintext
    | NotTokenList
    | NoTokensInBackup
    | RestoreDeclined
    | Restored(restored: nat, failed: nat)

  /** What the guards before the restore loop decide. */
  datatype RestorePlan =
    | Stop(outcome: RestoreOutcome)
    | Merge(entries: seq<map<string, Json>>)

  predicate IsTokenList(j: Json) {
    j.JArr? && forall i :: 0 <= i < |j.items| ==> j.items[i].JObj?
  }

  function Entries(j: Json): seq<map<string, Json>>
    requires IsTokenList(j)
  {
    seq(|j.items|, i requires 0 <= i < |j.items| => j.items[i].fields)
  }

  /** `base64.b64decode(value)`: only a string decodes. */
  function DecodeField(p: Primitives, value: Json): Option<seq<byte>> {
    match value
    case JStr(s) => p.b64decode(s)
    case _ => None
  }

  /** The decrypted listing's checks. */
  function PlanForPlaintext(p: Primitives, data: seq<byte>, confirmed: bool): RestorePlan {
    if data == [] then Stop(EmptyPlaintext)
    else match p.decodeUtf8(data)
      case None => Stop(RestoreError)
      case Some(text) =>
        match p.loads(text)
        case None => Stop(InvalidJson)
        case Some(tokens) =>
          if !IsTokenList(tokens) then Stop(NotTokenList)
          else if tokens.items == [] then Stop(NoTokensInBackup)
          else if !confirmed then Stop(RestoreDeclined)
          else Merge(Entries(tokens))
  }

  /**
   * The checks of `_handle_restore_tokens` before its loop, given the path
   * the open dialog returned, the file's text (`None` when it cannot be
   * read), the password dialog's answer and the confirmation.
   */
  function Plan(p: Primitives, path: string, fileText: Option<string>, password: Option<string>, confirmed: bool): RestorePlan {
    if path == "" then Stop(RestoreNotChosen)
    else if fileText.None? then Stop(RestoreError)
    else match p.loads(fileText.value)
      case None => Stop(InvalidJson)
      case Some(content) =>
        if !IsEnvelope(content) then Stop(InvalidFormat)
        else if password.None? || password.value == "" then Stop(RestoreCancelled)
        else
          var salt := DecodeField(p, content.fields["salt"]);
          var nonce := DecodeField(p, content.fields["nonce"]);
          var ciphertext := DecodeField(p, content.fields["ciphertext"]);
          if salt.None? || nonce.None? || ciphertext.None? then Stop(RestoreError)
          else match p.decrypt(BackupKey(p, password.value, salt.value), nonce.value, ciphertext.value)
            case None => Stop(DecryptionFailed)
            case Some(data) => PlanForPlaintext(p, data, confirmed)
  }

  /**
   * The arguments the loop passes to `save_token_secret` for one entry, or
   * `None` when it counts the entry as failed without saving it: a missing
   * or falsy account, issuer or secret, or a value that is not a string.
   * The entry's recovery codes are not passed on.
   */
  function RestoreEntry(entry: map<string, Json>): Option<TokenInput> {
    var account, issuer, secret := Get(entry, "account_name"), Get(entry, "issuer_name"), Get(entry, "secret_key");
    var tokenType := GetOr(entry, "type", JStr("TOTP"));
    if !(Truthy(account) && Truthy(issuer) && Truthy(secret)) then None
    else if account.JStr? && issuer.JStr? && secret.JStr? && tokenType.JStr? then
      Some(TokenInput(account.s, issuer.s, secret.s, tokenType.s, None))
    else None
  }

  /**
   * The order of the guards: a document without the four fields is
   * rejected whatever the password and the confirmation, so before either
   * is asked for; the loop is reached only with a non-empty password, a
   * non-empty list of objects and the user's confirmation.
   */
  lemma PlanChecks(p: Primitives, path: string, fileText: Option<string>, password: Option<string>, confirmed: bool)
    ensures path != "" && fileText.Some? && p.loads(fileText.value).Some? && !IsEnvelope(p.loads(fileText.value).value) ==>
      Plan(p, path, fileText, password, confirmed) == Stop(InvalidFormat)
    ensures Plan(p, path, fileText, password, confirmed).Merge? ==>
      && path != "" && confirmed && password.Some? && password.value != ""
      && Plan(p, path, fileText, password, confirmed).entries != []
  {
  }

  /**
   * An entry needs a truthy account, issuer and secret; a missing type
   * defaults to "TOTP".
   */
  lemma RestoreEntryFields(entry: map<string, Json>)
    ensures !Truthy(Get(entry, "account_name")) || !Truthy(Get(entry, "issuer_name")) || !Truthy(Get(entry, "secret_key")) ==>
      RestoreEntry(entry).None?
    ensures RestoreEntry(entry).Some? ==> RestoreEntry(entry).value.recoveryCodes.None?
    ensures
      && "type" !in entry
      && Get(entry, "account_name").JStr? && Get(entry, "issuer_name").JStr? && Get(entry, "secret_key").JStr?
      && Truthy(Get(entry, "account_name")) && Truthy(Get(entry, "issuer_name")) && Truthy(Get(entry, "secret_key"))
      ==>
      RestoreEntry(entry) == Some(TokenInput(entry["account_name"].s, entry["issuer_name"].s, entry["secret_key"].s, "TOTP", None))
  {
  }

  datatype Tally = Tally(store: Store, restored: nat, failed: nat)

  /** The loop over the entries: the store afterwards and the two counts. */
  function RestoreAll(store: Store, available: bool, entries: seq<map<string, Json>>): (r: Tally)
    ensures r.restored + r.failed == |entries|
  {
    if entries == [] then Tally(store, 0, 0)
    else
      var before := RestoreAll(store, available, entries[..|entries| - 1]);
      match RestoreEntry(entries[|entries| - 1])
      case None => Tally(before.store, before.restored, before.failed + 1)
      case Some(t) =>
        var out := Save(before.store, available, t, None);
        if out.result.Ok? then Tally(out.store, before.restored + 1, before.failed)
        else Tally(out.store, before.restored, before.failed + 1)
  }

  /** Restoring only adds records: every token readable before keeps its record. */
  lemma {:induction false} RestoreKeepsRecords(store: Store, available: bool, entries: seq<map<string, Json>>)
    ensures forall k :: Occupied(store, available, k) ==>
      k in RestoreAll(store, available, entries).store && RestoreAll(store, available, entries).store[k] == store[k]
  {
    if entries != [] {
      var init := entries[..|entries| - 1];
      RestoreKeepsRecords(store, available, init);
      var before := RestoreAll(store, available, init);
      match RestoreEntry(entries[|entries| - 1])
      case None =>
      case Some(t) =>
        SaveWithoutIdentifierKeepsRecords(before.store, available, t);
        forall k | Occupied(store, available, k) ensures Occupied(before.store, available, k) {
          assert ReadToken(before.store, available, k) == ReadToken(store, available, k);
        }
    }
  }

  /** Without a reachable secret store nothing is restored and every entry fails. */
  lemma {:induction false} RestoreWithoutBackend(store: Store, entries: seq<map<string, Json>>)
    ensures RestoreAll(store, false, entries) == Tally(store, 0, |entries|)
  {
    if entries != [] {
      RestoreWithoutBackend(store, entries[..|entries| - 1]);
    }
  }

  /** An entry the loop skips leaves the store and the restored count as they were. */
  lemma RestoreSkipsIncomplete(store: Store, available: bool, entries: seq<map<string, Json>>, entry: map<string, Json>)
    requires RestoreEntry(entry).None?
    ensures var before := RestoreAll(store, available, entries);
      RestoreAll(store, available, entries + [entry]) == Tally(before.store, before.restored, before.failed + 1)
  {
    assert (entries + [entry])[..|entries|] == entries;
  }

  /**
   * A record backed up from the listing (string fields, all three truthy)
   * is restored with the same account, issuer, secret and type, and
   * without its recovery codes.
   */
  lemma BackedUpEntryRestores(info: TokenInfo)
    requires info.accountName.JStr? && info.issuerName.JStr? && info.secretKey.JStr? && info.tokenType.JStr?
    requires Complete(info)
    ensures RestoreEntry(InfoJson(info).fields) ==
      Some(TokenInput(info.accountName.s, info.issuerName.s, info.secretKey.s, info.tokenType.s, None))
  {
  }

  /**
   * With faithful primitives, restoring a written backup with its password
   * reaches the restore loop with exactly the backed-up records.
   */
  lemma {:induction false} BackupThenRestore(p: Primitives, path: string, tokens: seq<TokenInfo>, password: string,
                                             salt: AppLock.Salt, nonce: Nonce)
    requires Faithful(p) && path != "" && tokens != [] && password != ""
    ensures Backup(p, path, Some(tokens), Some(password), salt, nonce) ==
      BackupWritten(path, p.dumps(Envelope(p, tokens, password, salt, nonce)))
    ensures Plan(p, path, Some(p.dumps(Envelope(p, tokens, password, salt, nonce))), Some(password), true) ==
      Merge(seq(|tokens|, i requires 0 <= i < |tokens| => InfoJson(tokens[i]).fields))
  {
    var env := Envelope(p, tokens, password, salt, nonce);
    var text := p.dumps(TokensJson(tokens));
    var data := p.encodeUtf8(text);
    var key := BackupKey(p, password, salt);
    assert p.loads(p.dumps(env)) == Some(env);
    assert DecodeField(p, env.fields["salt"]) == Some(salt);
    assert DecodeField(p, env.fields["nonce"]) == Some(nonce);
    assert DecodeField(p, env.fields["ciphertext"]) == Some(p.encrypt(key, nonce, data));
    assert p.decrypt(key, nonce, p.encrypt(key, nonce, data)) == Some(data);
    assert data != [] by {
      assert text != "";
    }
    assert p.decodeUtf8(data) == Some(text);
    assert p.loads(text) == Some(TokensJson(tokens));
    assert Entries(TokensJson(tokens)) == seq(|tokens|, i requires 0 <= i < |tokens| => InfoJson(tokens[i]).fields);
  }

  // ---------------------------------------------------------------------
  // The frame

  const ChangePinText := "Change PIN"
  const SetPinText := "Set PIN"

  /** What the change-PIN button ends up reporting. */
  datatype PinChange =
    | PinUnchanged          // a dialog was cancelled
    | CurrentPinIncorrect
    | PinUpdated
    | PinTooShortError      // set_app_pin raised ValueError
    | PinStoreError         // set_app_pin raised anything else

  class SettingsFrame {
    /** The value the auto-lock drop-down shows. */
    var autoLockDisplay: string
    /** The change-PIN button's text. */
    var pinButtonText: string
    const app: Session.TwoFactorApp
    const prims: Primitives

    constructor (app: Session.TwoFactorApp, prims: Primitives)
      ensures this.app == app && this.prims == prims
      ensures pinButtonText == (if AppLock.IsPinSet(app.lock.entries, app.lock.available) then ChangePinText else SetPinText)
      ensures autoLockDisplay == DisplayLabel(ReadAutoLock(app.vault.store, app.vault.available))
    {
      this.app := app;
      this.prims := prims;
      new;
      UpdatePinButtonStates();
      LoadAndSetAutoLockDisplay();
    }

    /** `_load_and_set_auto_lock_display()` */
    method LoadAndSetAutoLockDisplay()
      modifies this`autoLockDisplay
      ensures autoLockDisplay == DisplayLabel(ReadAutoLock(app.vault.store, app.vault.available))
    {
      var currentTimeoutSeconds := ReadAutoLock(app.vault.store, app.vault.available);
      var displayValue := DefaultDisplay;
      var i := 0;
      while i < |AutoLockOptions|
        invariant 0 <= i <= |AutoLockOptions|
        invariant DisplayIn(AutoLockOptions[i..], currentTimeoutSeconds) == DisplayLabel(currentTimeoutSeconds)
      {
        var (text, seconds) := AutoLockOptions[i];
        assert AutoLockOptions[i..][0] == AutoLockOptions[i];
        if seconds == currentTimeoutSeconds {
          displayValue := text;
          break;
        }
        assert AutoLockOptions[i..][1..] == AutoLockOptions[i + 1..];
        i := i + 1;
      }
      autoLockDisplay := displayValue;
    }

    /**
     * `_on_auto_lock_change(label)`: the label's seconds (300 for an
     * unknown label) are stored and the application re-reads them and
     * restarts its inactivity timer.
     */
    method OnAutoLockChange(selected: string)
      requires app.TimerInvariant()
      modifies app.vault, app`autoLockAfterSeconds, app`inactivityTimerId, app.timers
      ensures app.vault.store == WriteAutoLock(old(app.vault.store), app.vault.available, LabelSeconds(selected))
      ensures app.autoLockAfterSeconds == if app.vault.available then LabelSeconds(selected) else DefaultAutoLockSeconds
      ensures app.TimerInvariant()
      ensures app.inactivityTimerId.Some? <==> app.appUnlocked && app.autoLockAfterSeconds > 0
      ensures app.timers.pending ==
        if app.inactivityTimerId.Some? then map[app.inactivityTimerId.value := app.autoLockAfterSeconds * 1000] else map[]
    {
      var timeoutSeconds := LabelSeconds(selected);
      app.vault.SaveAutoLockSetting(timeoutSeconds);
      app.UpdateAutoLockAndResetTimer();
      AutoLockRoundTrip(old(app.vault.store), timeoutSeconds);
    }

    /** `update_pin_button_states()` */
    method UpdatePinButtonStates()
      modifies this`pinButtonText
      ensures pinButtonText == if AppLock.IsPinSet(app.lock.entries, app.lock.available) then ChangePinText else SetPinText
    {
      if AppLock.IsPinSet(app.lock.entries, app.lock.available) {
        pinButtonText := ChangePinText;
      } else {
        pinButtonText := SetPinText;
      }
    }

    /**
     * `_set_initial_pin()` with the answer of the confirm-mode PIN dialog
     * and the salt `set_app_pin` draws: a non-empty answer is stored, and
     * the button is refreshed either way.
     */
    method SetInitialPin(newPin: Option<string>, salt: AppLock.Salt) returns (outcome: PinChange)
      modifies app.lock, this`pinButtonText
      ensures newPin.None? || newPin.value == "" ==> outcome == PinUnchanged
      ensures newPin.Some? && 0 < |newPin.value| < AppLock.MinPinLength ==> outcome == PinTooShortError
      ensures newPin.Some? && |newPin.value| >= AppLock.MinPinLength ==>
        outcome == if app.lock.available then PinUpdated else PinStoreError
      ensures app.lock.entries ==
        if outcome == PinUpdated then AppLock.WritePin(old(app.lock.entries), app.lock.hash, newPin.value, salt)
        else old(app.lock.entries)
      ensures pinButtonText == if AppLock.IsPinSet(app.lock.entries, app.lock.available) then ChangePinText else SetPinText
    {
      if newPin.Some? && newPin.value != "" {
        var r := app.lock.SetAppPin(newPin.value, salt);
        match r
        case PinSet => outcome := PinUpdated;
        case PinTooShort => outcome := PinTooShortError;
        case LockUnavailable => outcome := PinStoreError;
      } else {
        outcome := PinUnchanged;
      }
      UpdatePinButtonStates();
    }

    /**
     * `_handle_change_pin()` with the answers of the two PIN dialogs.  With
     * no PIN set it goes straight to setting one; otherwise the new PIN is
     * taken only after the current one verifies, so the stored PIN never
     * changes without it.
     */
    method HandleChangePin(currentPin: Option<string>, newPin: Option<string>, salt: AppLock.Salt) returns (outcome: PinChange)
      modifies app.lock, this`pinButtonText
      ensures var wasSet := AppLock.IsPinSet(old(app.lock.entries), app.lock.available);
        var verified := old(app.Accepted(currentPin));
        && (outcome == PinUpdated <==>
              (!wasSet || verified) && newPin.Some? && |newPin.value| >= AppLock.MinPinLength && app.lock.available)
        && (wasSet && currentPin.Some? && currentPin.value != "" && !verified ==> outcome == CurrentPinIncorrect)
        && (wasSet && (currentPin.None? || currentPin.value == "") ==> outcome == PinUnchanged)
        && ((!wasSet || verified) && (newPin.None? || newPin.value == "") ==> outcome == PinUnchanged)
        && ((!wasSet || verified) && newPin.Some? && 0 < |newPin.value| < AppLock.MinPinLength ==> outcome == PinTooShortError)
        && ((!wasSet || verified) && newPin.Some? && |newPin.value| >= AppLock.MinPinLength ==>
              outcome == if app.lock.available then PinUpdated else PinStoreError)
        && ((!wasSet || verified) ==>
              pinButtonText == if AppLock.IsPinSet(app.lock.entries, app.lock.available) then ChangePinText else SetPinText)
        && (wasSet && !verified ==>
              app.lock.entries == old(app.lock.entries) && pinButtonText == old(pinButtonText))
      ensures app.lock.entries ==
        if outcome == PinUpdated then AppLock.WritePin(old(app.lock.entries), app.lock.hash, newPin.value, salt)
        else old(app.lock.entries)
      ensures outcome == PinUpdated ==> AppLock.VerifyPin(app.lock.entries, true, app.lock.hash, newPin.value)
    {
      if !AppLock.IsPinSet(app.lock.entries, app.lock.available) {
        outcome := SetInitialPin(newPin, salt);
      } else if currentPin.None? || currentPin.value == "" {
        outcome := PinUnchanged;
      } else if !AppLock.VerifyPin(app.lock.entries, app.lock.available, app.lock.hash, currentPin.value) {
        outcome := CurrentPinIncorrect;
      } else {
        outcome := SetInitialPin(newPin, salt);
      }
      if outcome == PinUpdated {
        AppLock.SetThenVerify(old(app.lock.entries), app.lock.hash, newPin.value, salt);
      }
    }

    /**
     * `_handle_backup_tokens()` with the path the save dialog returned, the
     * password dialog's answer and the random salt and nonce.  The secret
     * store is only read.
     */
    method HandleBackupTokens(path: string, password: Option<string>, salt: AppLock.Salt, nonce: Nonce)
      returns (outcome: BackupOutcome)
      ensures outcome == Backup(prims, path, AllTokenData(app.vault.store, app.vault.available), password, salt, nonce)
    {
      if path == "" {
        return BackupNotChosen;
      }
      var allTokens := app.vault.GetAllTokenData();
      if allTokens.None? {
        return BackupError;
      }
      if allTokens.value == [] {
        return NoTokensToBackup;
      }
      if password.None? || password.value == "" {
        return BackupCancelled;
      }
      var tokensData := prims.encodeUtf8(prims.dumps(TokensJson(allTokens.value)));
      var aesKey := prims.deriveKey(prims.encodeUtf8(password.value), salt);
      var encrypted := prims.encrypt(aesKey, nonce, tokensData);
      var backupContent := JObj(map[
        "version" := JStr(BackupVersion),
        "salt" := JStr(prims.b64encode(salt)),
        "nonce" := JStr(prims.b64encode(nonce)),
        "ciphertext" := JStr(prims.b64encode(encrypted))]);
      return BackupWritten(path, prims.dumps(backupContent));
    }

    /** The checks of `_handle_restore_tokens()` before its loop, step by step. */
    method ReadBackup(path: string, fileText: Option<string>, password: Option<string>, confirmed: bool)
      returns (plan: RestorePlan)
      ensures plan == Plan(prims, path, fileText, password, confirmed)
    {
      if path == "" {
        return Stop(RestoreNotChosen);
      }
      if fileText.None? {
        return Stop(RestoreError);
      }
      var backupContent := prims.loads(fileText.value);
      if backupContent.None? {
        return Stop(InvalidJson);
      }
      if !IsEnvelope(backupContent.value) {
        return Stop(InvalidFormat);
      }
      if password.None? || password.value == "" {
        return Stop(RestoreCancelled);
      }
      var fields := backupContent.value.fields;
      var salt := DecodeField(prims, fields["salt"]);
      var nonce := DecodeField(prims, fields["nonce"]);
      var ciphertext := DecodeField(prims, fields["ciphertext"]);
      if salt.None? || nonce.None? || ciphertext.None? {
        return Stop(RestoreError);
      }
      var aesKey := prims.deriveKey(prims.encodeUtf8(password.value), salt.value);
      var tokensDataBytes := prims.decrypt(aesKey, nonce.value, ciphertext.value);
      if tokensDataBytes.None? {
        return Stop(DecryptionFailed);
      }
      if tokensDataBytes.value == [] {
        return Stop(EmptyPlaintext);
      }
      var decoded := prims.decodeUtf8(tokensDataBytes.value);
      if decoded.None? {
        return Stop(RestoreError);
      }
      var tokensToRestore := prims.loads(decoded.value);
      if tokensToRestore.None? {
        return Stop(InvalidJson);
      }
      if !IsTokenList(tokensToRestore.value) {
        return Stop(NotTokenList);
      }
      if tokensToRestore.value.items == [] {
        return Stop(NoTokensInBackup);
      }
      if !confirmed {
        return Stop(RestoreDeclined);
      }
      return Merge(Entries(tokensToRestore.value));
    }

    /** The restore loop: each complete entry is saved under a new identifier. */
    method RestoreEntries(entries: seq<map<string, Json>>) returns (restoredCount: nat, failedCount: nat)
      modifies app.vault
      ensures RestoreAll(old(app.vault.store), app.vault.available, entries) ==
        Tally(app.vault.store, restoredCount, failedCount)
    {
      var vault := app.vault;
      restoredCount, failedCount := 0, 0;
      var i := 0;
      while i < |entries|
        invariant 0 <= i <= |entries|
        invariant RestoreAll(old(vault.store), vault.available, entries[..i]) == Tally(vault.store, restoredCount, failedCount)
      {
        var tokenData := entries[i];
        var accountName := Get(tokenData, "account_name");
        var issuerName := Get(tokenData, "issuer_name");
        var secretKey := Get(tokenData, "secret_key");
        var tokenType := GetOr(tokenData, "type", JStr("TOTP"));
        assert entries[..i + 1][..i] == entries[..i];
        if Truthy(accountName) && Truthy(issuerName) && Truthy(secretKey) {
          if accountName.JStr? && issuerName.JStr? && secretKey.JStr? && tokenType.JStr? {
            var r := vault.SaveTokenSecret(TokenInput(accountName.s, issuerName.s, secretKey.s, tokenType.s, None), None);
            if r.Ok? {
              restoredCount := restoredCount + 1;
            } else {
              failedCount := failedCount + 1;
            }
          } else {
            failedCount := failedCount + 1;
          }
        } else {
          failedCount := failedCount + 1;
        }
        i := i + 1;
      }
      assert entries[..i] == entries;
    }

    /**
     * `_handle_restore_tokens()`: a check that fails stops with its message
     * and changes nothing; otherwise the entries are merged into the secret
     * store, the home view is reloaded and the auto-lock timer restarted.
     */
    method HandleRestoreTokens(path: string, fileText: Option<string>, password: Option<string>, confirmed: bool)
      returns (outcome: RestoreOutcome)
      requires app.TimerInvariant()
      modifies app.vault, app`tokenCards, app`homeView, app`autoLockAfterSeconds, app`inactivityTimerId, app.timers
      ensures var plan := Plan(prims, path, fileText, password, confirmed);
        && (plan.Stop? ==>
              && outcome == plan.outcome && app.vault.store == old(app.vault.store)
              && app.tokenCards == old(app.tokenCards) && app.homeView == old(app.homeView)
              && app.autoLockAfterSeconds == old(app.autoLockAfterSeconds)
              && app.inactivityTimerId == old(app.inactivityTimerId) && app.timers.pending == old(app.timers.pending))
        && (plan.Merge? ==>
              var tally := RestoreAll(old(app.vault.store), app.vault.available, plan.entries);
              && outcome == Restored(tally.restored, tally.failed) && app.vault.store == tally.store
              && app.homeView == Session.ViewOf(app.vault.store, app.vault.available, app.searchText)
              && Session.CardsShow(app.tokenCards, Session.ShownOf(app.vault.store, app.vault.available, app.searchText), app.otp)
              && app.autoLockAfterSeconds == ReadAutoLock(app.vault.store, app.vault.available)
              && (app.inactivityTimerId.Some? <==> app.appUnlocked && app.autoLockAfterSeconds > 0)
              && app.timers.pending ==
                if app.inactivityTimerId.Some? then map[app.inactivityTimerId.value := app.autoLockAfterSeconds * 1000] else map[])
      ensures app.TimerInvariant()
    {
      var plan := ReadBackup(path, fileText, password, confirmed);
      if plan.Stop? {
        return plan.outcome;
      }
      var restoredCount, failedCount := RestoreEntries(plan.entries);
      app.LoadAndDisplayTokens();
      app.UpdateAutoLockAndResetTimer();
      return Restored(restoredCount, failedCount);
    }
  }
}
