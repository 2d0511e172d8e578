# A verified model of a desktop two-factor authenticator

The application keeps TOTP/HOTP secrets in the operating system's secret
store (the `keyring` service "2FA App"). Each token is one JSON record under
its identifier. A JSON accounts index and the auto-lock timeout sit under two
reserved keys in the same namespace. A PIN, kept as a salted PBKDF2 hash in a
second keyring service, guards the main window. The startup check allows at
most three attempts. An inactivity timer re-locks the window. The home view
lists one card per token; the search filter matches the issuer or the account
without regard to case. Each card shows the current code and copies it to the
clipboard, and a timer clears the clipboard after 30 seconds if it still holds
that code. The settings frame covers four things:
- the auto-lock timeout;
- setting and changing the PIN;
- encrypted backups: the listing is turned into JSON, then encrypted with
  AES-GCM under a PBKDF2 key, then written as Base64 fields;
- restoring such a backup into the store.

The model is written in Dafny, one module per source file:

| module | file | models |
|---|---|---|
| `SecureStorage` | `secure_storage.dfy` | core/secure_storage.py: the store as a map from keys to stored text; the functions as pure functions on that map; `Vault`, a class whose methods change the store in place |
| `AppLock` | `app_lock.dfy` | core/app_lock.py: hex encoding, the PIN entries and `PinLock.SetAppPin` |
| `TokenCards` | `token_card.dfy` | ui/token_card.py: the code label, the clipboard and its clear timer |
| `Session` | `session.dfy` | main.py: the PIN prompt loop, the home view and its filter, the inactivity timer, frame switching, closing |
| `Settings` | `settings.dfy` | ui/settings_frame.py: auto-lock options, change PIN, backup and restore |
| `AddTokenDialogs`, `PinDialogs`, `PasswordDialogs` | `add_token_dialog.dfy`, `pin_dialog.dfy`, `password_dialog.dfy` | the OK checks of the three dialogs and the value each hands back |
| `Text`, `Json`, `Wrappers` | `text.dfy`, `json.dfy`, `wrappers.dfy` | the Python string operations used (`strip`, `lower`, `upper`, `replace`, `in`, `str(n)`), JSON documents with Python truthiness, `Option` |

Text that `json.loads` accepts is modelled by the document it encodes. Any
other stored text is `Unparsable`.

Loops in the source are `while` loops with invariants in the model. Each one
is proved against a pure function, and those functions carry the lemmas:
- the prompt loop;
- the identifier collision loop;
- the listing loop;
- the card loop of the home view;
- the restore loop;
- the auto-lock label search;
- the card clean-up.

What could not be seen is a parameter of the model:
- the keyring backend being reachable (`available`);
- the PIN hash (`PinHash`);
- pyotp's current code, or `None` where `now()` raises on a secret that is not valid Base32;
- the backup cryptography with Base64, JSON and UTF-8, gathered in
  `Settings.Primitives`, whose round-trip laws are the predicate
  `Settings.Faithful`;
- the random salts and nonces;
- the file and message dialogs' answers.

A cancelled PIN prompt ends the process on the lock screen as well as at
startup (main.py:150-155), not only the unlock attempt.

## Model

| member | source | states |
|---|---|---|
| `SecureStorage.ReadTokenOfRecord` | core/secure_storage.py:67-81 | a record written by save reads back with exactly the account, issuer, secret, type and recovery codes that were written, under its identifier |
| `SecureStorage.ReadTokenDefaults` | core/secure_storage.py:74-81 | any stored JSON object reads as a token; a missing `type` reads as "TOTP", missing `recovery_codes` as "", a stored null stays null, a missing account as None |
| `SecureStorage.AutoLockRoundTrip` | core/secure_storage.py:137-156 | the timeout reads back what was saved; with no saved value, or with no keyring, the default 300 is read |
| `SecureStorage.AddToIndexAppends` | core/secure_storage.py:116-125 | on a list index the update succeeds; it appends the identifier exactly when absent and keeps the earlier entries in order; no other key changes |
| `SecureStorage.AddToIndexIdempotent` | core/secure_storage.py:116-125 | adding the same identifier a second time leaves the store as the first time did |
| `SecureStorage.RemoveFirstDistinct` | core/secure_storage.py:127-135 | removing from a duplicate-free list keeps it duplicate-free; it leaves exactly the other entries and no trace of the removed one |
| `SecureStorage.CandidateDistinct` | core/secure_storage.py:41-46 | the identifiers the collision loop tries (`base`, `base_1`, `base_2`, ...) are pairwise different |
| `SecureStorage.OccupiedBound` | core/secure_storage.py:44-46 | the store cannot hold more taken candidates than it has keys, so the collision loop ends |
| `SecureStorage.FreeIndex` | core/secure_storage.py:41-47 | the index the loop stops at is the least one, at or after the start, whose candidate `get_token_secret` does not find |
| `SecureStorage.FreeIndexIsFirstFree` | core/secure_storage.py:41-47 | when every candidate before k is taken and k is free, the loop stops at k |
| `SecureStorage.NewIdentifierIsLeastFree` | core/secure_storage.py:36-47 | a generated identifier was free before the save; it is the lower-cased, underscored base when that is free, else `base_k` for the least free k >= 1 |
| `SecureStorage.SaveRejectsMissingFields` | core/secure_storage.py:28-29 | an empty account, issuer or secret raises ValueError with its message and writes nothing |
| `SecureStorage.SaveChecksTypeIgnoringCase` | core/secure_storage.py:32-55 | the type is checked without regard to case ("totp" and "Hotp" pass, "TOTP1" fails); an unsupported type raises ValueError and writes nothing; a supported one is stored as given |
| `SecureStorage.SaveWithIdentifier` | core/secure_storage.py:36-59 | with an explicit identifier, save returns it and writes exactly that key with the record; no other record changes |
| `SecureStorage.SaveWithoutIdentifierKeepsRecords` | core/secure_storage.py:38-58 | a save without an identifier never overwrites a token that `get_token_secret` found before |
| `SecureStorage.IndexConsistency` | core/secure_storage.py:158-175 | on a valid vault, an identifier is in the index exactly when `get_token_secret` finds its record, and the index has no duplicates |
| `SecureStorage.EmptyStoreValid` | core/secure_storage.py:102-108 | the empty store, with no index, is a valid vault |
| `SecureStorage.ValidAfterReplace` | core/secure_storage.py:56-58 | overwriting a listed record with another object keeps the vault valid and the index unchanged |
| `SecureStorage.ValidAfterInsert` | core/secure_storage.py:49-59 | writing a new record and appending its key to the index keeps the vault valid |
| `SecureStorage.SaveKeepsValid` | core/secure_storage.py:11-59 | a successful save to a non-reserved key keeps the vault valid and returns the key; the key is in the index exactly once, appended when new; no other record changes |
| `SecureStorage.DeleteCleansIndex` | core/secure_storage.py:90-99 | delete removes the identifier from a list index both when the record exists and when the store reports it missing; the other entries keep their order |
| `SecureStorage.ValidAfterRemove` | core/secure_storage.py:90-99 | dropping a listed record and its index entry keeps the vault valid |
| `SecureStorage.DeleteKeepsValid` | core/secure_storage.py:90-99 | delete keeps the vault valid; afterwards neither the record nor its index entry remains |
| `SecureStorage.SaveOverIndexFails` | core/secure_storage.py:56-65 | a save aimed at the index key overwrites the index with the record and then raises; no list index remains |
| `SecureStorage.AccountsListKeyCollision` | core/secure_storage.py:7-47 | issuer "_" with account "accounts_list__" generates the index key itself; save then overwrites the index and fails |
| `SecureStorage.SaveOverAutoLock` | core/secure_storage.py:49-59 | a save aimed at the auto-lock key succeeds and lists the reserved key as a token; the setting reads as the default afterwards |
| `SecureStorage.AutoLockKeyCollision` | core/secure_storage.py:8-47 | issuer "_" with account "auto_lock_timeout_seconds__" generates the auto-lock key and overwrites the timeout with a record |
| `SecureStorage.GeneratesReserved` | core/secure_storage.py:39-47 | two names of lower-case letters and `_` whose `issuer_account` is a key holding no record generate exactly that key |
| `SecureStorage.CollectSound` | core/secure_storage.py:164-175 | every listed token is complete (account, secret and issuer truthy), comes from an index entry and equals what `get_token_secret` returns for it; there are no more tokens than entries |
| `SecureStorage.CollectComplete` | core/secure_storage.py:166-172 | every index entry whose record is complete is listed |
| `SecureStorage.CollectSkipsCorrupt` | core/secure_storage.py:166-174 | an unreadable record loses exactly the tokens read from its key; the others stay in order |
| `SecureStorage.AllTokenDataSkipsCorrupt` | core/secure_storage.py:158-175 | making one non-reserved record unreadable drops exactly that token from the listing |
| `SecureStorage.ListingOfValid` | core/secure_storage.py:158-175 | on a valid vault the listing succeeds and holds exactly the complete records |
| `SecureStorage.Vault.constructor` | core/secure_storage.py:4 | the vault starts with the given store and backend availability |
| `SecureStorage.Vault.AddAccountToList` | core/secure_storage.py:116-125 | the new store is `AddToIndex` of the old one; when the update raises, nothing is written |
| `SecureStorage.Vault.RemoveAccountFromList` | core/secure_storage.py:127-135 | the new store is `RemoveFromIndex` of the old one; when the update raises, nothing is written |
| `SecureStorage.Vault.SaveTokenSecret` | core/secure_storage.py:11-65 | the result and new store are those of `Save`; the collision loop is proved to stop at `FreeIndex` |
| `SecureStorage.Vault.DeleteTokenSecret` | core/secure_storage.py:90-99 | the escaping exception and the new store are those of `Delete` |
| `SecureStorage.Vault.SaveAutoLockSetting` | core/secure_storage.py:137-144 | the new store is the old one with the timeout written, unchanged without a keyring |
| `SecureStorage.Vault.GetAllTokenData` | core/secure_storage.py:158-175 | returns `AllTokenData`; every token it returns is complete and is what `get_token_secret` gives for its identifier |
| `AppLock.FromHexOfHex` | core/app_lock.py:28-47 | `bytes.fromhex` of `b.hex()` gives back `b` |
| `AppLock.PinLock.constructor` | core/app_lock.py:5-7 | the lock service starts with the given entries, availability and hash |
| `AppLock.PinLock.SetAppPin` | core/app_lock.py:20-35 | a PIN shorter than 4 is refused with nothing written; with no keyring nothing is written either; otherwise the salt, then the hash, are stored as hex |
| `AppLock.SetThenVerify` | core/app_lock.py:20-65 | after a PIN is set, `is_pin_set` holds and that PIN verifies |
| `AppLock.VerifyAfterSet` | core/app_lock.py:37-52 | after a PIN is set, an attempt verifies exactly when it hashes to the same digest under the same salt |
| `AppLock.NotSetRejects` | core/app_lock.py:37-70 | with no PIN set, or with no keyring, no attempt verifies |
| `AppLock.EmptySaltLocksOut` | core/app_lock.py:43-65 | an empty stored salt counts as a set PIN that no attempt verifies |
| `AppLock.CorruptHashRejects` | core/app_lock.py:46-58 | a stored salt or hash that is not hex text (where `bytes.fromhex` raises) makes every attempt fail |
| `TokenCards.DisplayIssuer` | ui/token_card.py:18 | the issuer shown is never empty: the given name when it is non-empty, otherwise "Unknown Issuer" |
| `TokenCards.FormatCodeRoundTrip` | ui/token_card.py:79 | the label has a space after the first three characters; dropping that space gives the code back, and so does dropping every space from a code without spaces |
| `TokenCards.ClearOnlyIfMatches` | ui/token_card.py:109-117 | the clear step empties the clipboard exactly when it still holds the copied code, never touches other content and is idempotent |
| `TokenCards.ClearClipboardIfMatches` | ui/token_card.py:109-117 | the new clipboard is `ClearedClipboard` of the old one |
| `TokenCards.FirstCodeShown` | ui/token_card.py:21-42 | a card whose first code failed holds no value and shows "------", which no code's label equals; otherwise it holds the code and its label |
| `TokenCards.ClearTimer.Fire` | ui/token_card.py:102-117 | an expiring timer runs the clear step once and is no longer alive |
| `TokenCards.TokenCard.constructor` | ui/token_card.py:11-74 | a new card holds its fields, the displayed issuer and no clear timer; it shows the first code with its label, or, when pyotp raises, no value and the label "------" |
| `TokenCards.TokenCard.UpdateToken` | ui/token_card.py:76-89 | a code replaces the value and label; when pyotp raises, the exception is caught and value and label stay as they were; the account, secret, issuer and timer are unchanged |
| `TokenCards.TokenCard.CopyToClipboard` | ui/token_card.py:91-108 | without a code nothing changes; otherwise the clipboard holds the code, a live old timer is cancelled, and a fresh live timer carries the code |
| `TokenCards.TokenCard.UpdateDisplay` | ui/token_card.py:127-144 | the issuer, account and secret take the new values as given; a code refreshes the value and label, and when pyotp raises the exception escapes with value and label as they were |
| `Session.PromptShowsAttemptsLeft` | main.py:134-141 | every prompt ends with the attempts left, `3 - attempts`; it starts with "Invalid PIN. " exactly after a failed attempt |
| `Session.LoadAllStopsAtRaise` | main.py:349-386 | once an entry raises, the later entries are not looked at |
| `Session.LoadAllSound` | main.py:349-367 | every card comes from an index entry naming it, and that entry's step shows it |
| `Session.LoadAllShowNext` | main.py:349-367 | an entry the filter shows is appended to the cards, and no earlier card has its identifier with other contents |
| `Session.LoadAllShowsMatches` | main.py:333-355 | when loading does not raise, an entry whose record loads is shown exactly when the lower-cased search term occurs in its lower-cased issuer or account |
| `Session.EmptySearchMatchesAll` | main.py:333-355 | with an empty search every token matches |
| `Session.MatchesByPosition` | main.py:355 | the filter agrees with "the term occurs at some position of the issuer or account" |
| `Session.CardsShowExtend` | main.py:356-368 | storing the card for one more shown entry keeps the map showing exactly the shown entries |
| `Session.AfterQueue.After` | main.py:398 | scheduling hands out a new identifier and records its delay |
| `Session.AfterQueue.AfterCancel` | main.py:393-395 | cancelling drops exactly that callback |
| `Session.TwoFactorApp.constructor` | main.py:21-98 | the app starts locked, with no attempts, no timer, no cards, no frame, and the stored auto-lock timeout |
| `Session.TwoFactorApp.QuitApplication` | main.py:125-129 | the process ends |
| `Session.TwoFactorApp.PromptForPinAndUnlock` | main.py:131-161 | at most 3 prompts, each with its attempts-left text; all but the last answer were wrong PINs; it unlocks exactly when the last answer verifies; on failure (a cancel or three wrong PINs) the process ends |
| `Session.TwoFactorApp.ResetInactivityTimer` | main.py:392-398 | the old callback is cancelled; a new one of `seconds * 1000` ms is pending exactly when unlocked with auto-lock enabled; the timer invariant is kept |
| `Session.TwoFactorApp.LoadEntry` | main.py:350-367 | one entry raises exactly when its step raises; a new card, showing the record and its code, is built exactly when the step shows it |
| `Session.TwoFactorApp.BuildCards` | main.py:346-373 | the cards show exactly the entries `LoadAll` shows, the count is their number, and `raised` is whether an entry raised |
| `Session.TwoFactorApp.LoadAndDisplayTokens` | main.py:323-386 | the view is `ViewOf`: no tokens, a list, no match for the search, nothing to display, or a load error; the cards show exactly `ShownOf` |
| `Session.TwoFactorApp.ShowHomeFrame` | main.py:238-249 | the home frame is current, and cards and view are reloaded |
| `Session.TwoFactorApp.ShowAppWindow` | main.py:107-112 | the timeout is re-read; the window shows the reloaded home frame; the timer is restarted under the invariant |
| `Session.TwoFactorApp.LockApplication` | main.py:400-412 | the timer is cancelled and the window hidden before the prompt; only an accepted PIN shows the window again, reloads the home frame with view and cards from the store, and restarts the timer with its delay; a failure ends the process with no timer pending and the cards as they were |
| `Session.TwoFactorApp.UpdateAutoLockAndResetTimer` | main.py:414-418 | the stored timeout is re-read and the timer rescheduled with it |
| `Session.TwoFactorApp.ShowFrameCallback` | main.py:203-219 | while locked, or for an unknown name, nothing changes; "Home" reloads the home frame; "Settings" shows settings without touching the cards |
| `Session.TwoFactorApp.CancelInactivityTimer` | main.py:114-117 | afterwards no auto-lock callback is pending or recorded |
| `Session.TwoFactorApp.DestroyCards` | main.py:119-122 | every card is removed and every clipboard timer of the old cards is dead |
| `Session.TwoFactorApp.OnClosing` | main.py:114-123 | no auto-lock callback, no cards and no live clipboard timer remain, and the process ends |
| `Session.TwoFactorApp.HandleInitialPinCheck` | main.py:163-201 | with a PIN set, the startup prompt decides; without one, any non-empty PIN of at least 4 characters, with a keyring, is stored, verifies and unlocks; otherwise the process ends and nothing is stored |
| `Settings.SecondsOfFinds` | ui/settings_frame.py:88 | with distinct labels, an option's label maps to its seconds |
| `Settings.SecondsOfMissing` | ui/settings_frame.py:88 | a label no option carries has no seconds |
| `Settings.DisplayInFinds` | ui/settings_frame.py:80-84 | with distinct seconds, the label search finds an option's own label |
| `Settings.DisplayInMissing` | ui/settings_frame.py:80-84 | a timeout no option has shows "5 Minutes" |
| `Settings.AutoLockOptionsDistinct` | ui/settings_frame.py:53-60 | the six options have distinct labels and distinct seconds |
| `Settings.AutoLockOptionsRoundTrip` | ui/settings_frame.py:53-88 | each option's label gives its seconds and its seconds give its label; an unknown label saves 300, an unknown timeout shows "5 Minutes", and "5 Minutes" is 300 |
| `Settings.ChosenLabelShownAgain` | ui/settings_frame.py:77-89 | a chosen label, saved and read back, is shown again; an unknown label comes back as "5 Minutes" |
| `Settings.BackupShape` | ui/settings_frame.py:104-149 | a backup is written exactly for a chosen path, a non-empty listing and a non-empty password; a listing that raised is an error; the file holds exactly the four fields with version "1.0_encrypted" and Base64 salt and nonce |
| `Settings.PlanChecks` | ui/settings_frame.py:167-239 | a document without the four fields is rejected whatever the password and confirmation; the loop is reached only with a chosen path, a non-empty password, a non-empty list and confirmation |
| `Settings.RestoreEntryFields` | ui/settings_frame.py:243-268 | an entry with a falsy account, issuer or secret is skipped; recovery codes are never passed on; a missing type defaults to "TOTP" |
| `Settings.RestoreAll` | ui/settings_frame.py:241-268 | every entry counts as restored or as failed |
| `Settings.RestoreKeepsRecords` | ui/settings_frame.py:241-265 | restoring only adds: every token readable before keeps its record |
| `Settings.RestoreWithoutBackend` | ui/settings_frame.py:241-268 | without a keyring nothing is restored, the store is unchanged and every entry fails |
| `Settings.RestoreSkipsIncomplete` | ui/settings_frame.py:249-268 | a skipped entry leaves the store and the restored count unchanged and adds one failure |
| `Settings.BackedUpEntryRestores` | ui/settings_frame.py:243-260 | a backed-up listing record is restored with the same account, issuer, secret and type, without its recovery codes |
| `Settings.BackupThenRestore` | ui/settings_frame.py:96-239 | with faithful primitives, the written backup, read back with the same password and confirmed, reaches the restore loop with exactly the backed-up records |
| `Settings.SettingsFrame.constructor` | ui/settings_frame.py:24-64 | the frame shows the label of the stored timeout and "Change PIN" or "Set PIN" as a PIN is set |
| `Settings.SettingsFrame.LoadAndSetAutoLockDisplay` | ui/settings_frame.py:77-85 | the drop-down shows `DisplayLabel` of the stored timeout; the search loop is proved against `DisplayIn` |
| `Settings.SettingsFrame.OnAutoLockChange` | ui/settings_frame.py:87-94 | the label's seconds (300 when unknown) are saved; the app re-reads the timeout, and exactly one timer is pending, with that timeout in milliseconds, when unlocked with a positive timeout, none otherwise |
| `Settings.SettingsFrame.UpdatePinButtonStates` | ui/settings_frame.py:285-290 | the button reads "Change PIN" exactly when a PIN is set |
| `Settings.SettingsFrame.SetInitialPin` | ui/settings_frame.py:315-333 | a cancel changes nothing; a PIN shorter than 4 is refused; otherwise the PIN is stored, or the missing keyring is reported; the button is refreshed either way |
| `Settings.SettingsFrame.HandleChangePin` | ui/settings_frame.py:292-335 | the stored PIN changes only without a set PIN or after the current PIN verifies, and then to the given new PIN, which verifies; a cancelled or empty current PIN changes nothing; on the set path a cancel, a short PIN and a missing keyring each give their own outcome, and the button shows whether a PIN is now set |
| `Settings.SettingsFrame.HandleBackupTokens` | ui/settings_frame.py:96-158 | the outcome is `Backup` of the current listing, and the store is only read |
| `Settings.SettingsFrame.ReadBackup` | ui/settings_frame.py:167-239 | the guards run in the source's order and give `Plan` |
| `Settings.SettingsFrame.RestoreEntries` | ui/settings_frame.py:241-268 | the store and the two counts are those of `RestoreAll` |
| `Settings.SettingsFrame.HandleRestoreTokens` | ui/settings_frame.py:160-283 | a failed check stops with its outcome and changes nothing, the timeout and timers included; otherwise the entries are merged, the counts reported, the home view and its cards reloaded from the merged store, and the timer restarted with the re-read timeout as its delay |
| `AddTokenDialogs.NormaliseSecret` | ui/add_token_dialog.py:110 | the normalised secret has no spaces and no lower-case letters |
| `AddTokenDialogs.Base32CharInAlphabet` | ui/add_token_dialog.py:109-111 | the character ranges are exactly the allowed Base32 alphabet |
| `AddTokenDialogs.LengthRule` | ui/add_token_dialog.py:116 | the length rule as written equals "at least 16 and a multiple of 4" |
| `AddTokenDialogs.CheckTokenAccepts` | ui/add_token_dialog.py:89-121 | the dialog accepts exactly when stripped issuer, account and secret are non-empty and the normalised secret is Base32 with an accepted length; it returns the stripped fields and the normalised secret |
| `AddTokenDialogs.CheckTokenOrder` | ui/add_token_dialog.py:95-106 | the issuer is checked first, then the account, then the secret, each with its message |
| `AddTokenDialogs.StripIdempotent` | ui/add_token_dialog.py:90-93 | stripping twice is stripping once |
| `AddTokenDialogs.NormaliseIdempotent` | ui/add_token_dialog.py:110 | normalising twice is normalising once |
| `AddTokenDialogs.AcceptedFieldsAreStable` | ui/add_token_dialog.py:89-121 | fields the dialog accepted, shown again in edit mode and confirmed unchanged, are accepted as they are |
| `AddTokenDialogs.AddTokenDialog.constructor` | ui/add_token_dialog.py:5-51 | edit mode exactly for existing data, with the entries pre-filled; no result yet |
| `AddTokenDialogs.AddTokenDialog.OkEvent` | ui/add_token_dialog.py:89-123 | accepted fields become the result and close the dialog; a rejection shows its message and leaves result and dialog as they were |
| `AddTokenDialogs.AddTokenDialog.CancelEvent` | ui/add_token_dialog.py:125-128 | the result is None and the dialog closes |
| `PinDialogs.CheckPinAccepts` | ui/pin_dialog.py:105-132 | a PIN is accepted exactly when it has at least 4 characters and, in confirm mode, equals its confirmation; only a mismatch clears the confirmation |
| `PinDialogs.CheckPinOrder` | ui/pin_dialog.py:106-125 | an empty PIN, then a short one, then a missing confirmation are reported first |
| `PinDialogs.PinDialog.constructor` | ui/pin_dialog.py:5-29 | a new dialog has empty entries, no result and its mode flags |
| `PinDialogs.PinDialog.OkEvent` | ui/pin_dialog.py:105-134 | an accepted PIN becomes the result and closes the dialog; a rejection shows its message and keeps result and dialog, emptying the confirmation only on a mismatch |
| `PinDialogs.PinDialog.CancelEvent` | ui/pin_dialog.py:136-142 | the result is None and the dialog closes |
| `PinDialogs.PinDialog.HandleCloseButton` | ui/pin_dialog.py:63-77 | closing gives None; without a Cancel button it also asks the application to quit |
| `PasswordDialogs.CheckPasswordAccepts` | ui/password_dialog.py:98-124 | a password is accepted exactly when it has at least 8 characters and equals its confirmation; only a mismatch clears the confirmation |
| `PasswordDialogs.CheckPasswordOrder` | ui/password_dialog.py:102-116 | an empty password, then a short one, then a missing confirmation are reported first |
| `PasswordDialogs.PasswordDialog.constructor` | ui/password_dialog.py:5-8 | a new dialog has empty entries and no result |
| `PasswordDialogs.PasswordDialog.OkEvent` | ui/password_dialog.py:98-126 | an accepted password becomes the result and closes the dialog; a rejection shows its message and keeps result and dialog, emptying the confirmation only on a mismatch |
| `PasswordDialogs.PasswordDialog.CancelEvent` | ui/password_dialog.py:128-131 | the result is None and the dialog closes |
| `PasswordDialogs.PasswordDialog.HandleCloseButton` | ui/password_dialog.py:63-72 | closing gives None, with or without a Cancel button |
| `Text.TrimStartSuffix` | ui/add_token_dialog.py:90-93 | left stripping removes only a prefix of `str.isspace` characters |
| `Text.TrimEndPrefix` | ui/add_token_dialog.py:90-93 | right stripping removes only a suffix of `str.isspace` characters |
| `Text.Strip` | ui/add_token_dialog.py:90-93 | the stripped text neither starts nor ends with a character `str.isspace` holds for, and is no longer than the input |
| `Text.IsSubstringAt` | main.py:355 | Python's `in` on strings holds exactly when the term occurs at some position |
| `Text.NatToStringInjective` | core/secure_storage.py:45 | different counts give different decimal texts |

## Left out

- Keyring, clipboard and Tk: these are state passed in or held by the classes. The file system is not modelled: a backup file's text is a parameter, and writing the backup (`open`, `json.dump`) always succeeds in the model, so the "Backup Error" path of ui/settings_frame.py:151-157 is not reached. An unreachable keyring backend is the flag `available`, and it covers every call at once; a keyring that fails between two writes is not modelled.
- Cryptography, Base64, JSON text and UTF-8 are parameters (`Settings.Primitives`). Their round-trip laws (`Settings.Faithful`) are assumed only as a `requires` of `Settings.BackupThenRestore`. The PBKDF2 iteration counts and the key length are constants passed to the key derivation, not computed.
- `Settings.BackupThenRestore` covers the encrypted format only: a wrong password is not modelled beyond `decrypt` returning `None`.
- Case mapping (`lower`, `upper`) covers ASCII only, because Unicode case tables are outside the model. `strip` removes exactly the characters `str.isspace` holds for (`Text.IsStripSpace`).
- pyotp's code, the 30-second progress bar and the once-a-second refresh: the code is a parameter (`otp`, `None` where `now()` raises), and the refresh timer is not modelled, so neither is the source's stopping the refresh after a failed `now()`.
- The Tk `after` queue is a map of pending identifiers to delays. The 100 ms delay before `show_app_window` and the 1500 ms button-text resets are not modelled.
- Message boxes, window placement, focus and `grab_set` are not modelled: only the outcome each handler reaches is.
- `sys.exit` is the flag `exited`, since Dafny methods cannot stop the process.
- `open_add_token_dialog`, `handle_delete_token`, `show_frame`, the sidebar and the recovery-codes dialog are not part of this model.
- Iterating a JSON object index visits its keys in Python. The model treats it as raising, because a Dafny map keeps no insertion order.
- `Settings.RestoreEntry`: an entry whose account, issuer or secret is truthy but not a string would be passed to `save_token_secret` by the source; the model counts it as failed.
- `Settings.RestoreEntry`: the type of a restored entry is used only when it is a string; any other JSON type counts the entry as failed.
- Backup and restore drop the recovery codes, as the source does (`Settings.BackedUpEntryRestores` states this).
- `AppLock.FromHex`: `bytes.fromhex` whitespace handling is simplified to whitespace before each pair.
- `Session.TwoFactorApp.LoadAndDisplayTokens`: the `'N/A'` defaults are unreachable, because `get_token_secret` always returns all keys; a non-string issuer or account raises, as `.lower()` does.
- The PinDialog "Internal error" branch is not modelled, because a confirm-mode dialog always has its confirmation entry.
- `Settings.SettingsFrame.SetInitialPin`: the text of the "Could not set new PIN" message for a missing keyring is modelled only as the outcome `PinStoreError`.
- The restore password comes from a plain input dialog. It is a parameter, and its "cancelled" and "empty" answers are the same outcome.
- PyperclipException is not modelled, because the clipboard always accepts a copy.
- `TokenCards.ClearTimer.Fire`: the source runs the paste, compare and copy on a `threading.Timer` thread; the model makes them one atomic step, so a copy made by the user between the paste and the clearing copy is not modelled.
- `SecureStorage.ReadAutoLock`: the stored timeout is read as a JSON integer, where the source uses `int(...)`, which also accepts texts such as " 7 ", "+5" and "1_000". The app itself writes only `str(n)`, so only text written by another program reaches this difference.
- `AddTokenDialogs.AddTokenDialog.constructor`: edit mode is `existing.Some?`, while the source tests the truthiness of a dict. The app always passes a full record, so no empty dict reaches it.

