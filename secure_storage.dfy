/**
 * The credential vault of core/secure_storage.py: one service namespace of
 * the OS secret store, holding one JSON record per token identifier, the
 * JSON accounts index under a reserved key and the auto-lock timeout under
 * another reserved key.
 */
module SecureStorage {
  import opened Wrappers
  import opened Text
  import opened Json

  const ServiceName := "2FA App"
  const AccountsListKey := "__accounts_list__"
  const AutoLockSettingKey := "__auto_lock_timeout_seconds__"
  const DefaultAutoLockSeconds := 300

  /**
   * A value held by the secret service.  Text that `json.loads` accepts is
   * modelled by the document it encodes (`str(n)` is the JSON text of `n`);
   * any other text is `Unparsable`.
   */
  datatype Blob = Doc(doc: Json) | Unparsable

  /** The vault's namespace of the secret service: key to stored text. */
  type Store = map<string, Blob>

  predicate IsReserved(key: string) {
    key == AccountsListKey || key == AutoLockSettingKey
  }

  datatype Error =
    | InvalidInput(message: string)   // ValueError
    | StorageUnavailable              // keyring.errors.NoKeyringError
    | IndexUpdateFailed               // any other exception from the index update

  datatype Result<T> = Ok(value: T) | Err(error: Error)

  /** The dictionary `get_token_secret` returns. */
  datatype TokenInfo = TokenInfo(
    identifier: string,
    accountName: Json,
    issuerName: Json,
    secretKey: Json,
    tokenType: Json,
    recoveryCodes: Json)

  /** The arguments of `save_token_secret` other than the identifier. */
  datatype TokenInput = TokenInput(
    accountName: string,
    issuerName: string,
    secretKey: string,
    tokenType: string,
    recoveryCodes: Option<string>)

  /** `json.dumps(data)` of the record `save_token_secret` writes. */
  function RecordDoc(t: TokenInput): Json {
    JObj(map[
      "account_name" := JStr(t.accountName),
      "issuer_name" := JStr(t.issuerName),
      "secret_key" := JStr(t.secretKey),
      "type" := JStr(t.tokenType),
      "recovery_codes" := match t.recoveryCodes case Some(rc) => JStr(rc) case None => JNull])
  }

  // ---------------------------------------------------------------------
  // Reads

  /** `get_token_secret(identifier)`; an unreachable backend reads as absent. */
  function ReadToken(store: Store, available: bool, identifier: string): Option<TokenInfo> {
    if !available || identifier !in store then None
    else match store[identifier]
      case Doc(JObj(m)) =>
        Some(TokenInfo(identifier,
          Get(m, "account_name"), Get(m, "issuer_name"), Get(m, "secret_key"),
          GetOr(m, "type", JStr("TOTP")), GetOr(m, "recovery_codes", JStr(""))))
      case _ => None   // JSON that is not an object has no `.get`; unparsable text
  }

  /** `get_all_token_identifiers()`: the decoded index, `[]` when absent or unreadable. */
  function ReadIndex(store: Store, available: bool): Json {
    if !available || AccountsListKey !in store then JArr([])
    else match store[AccountsListKey]
      case Doc(d) => d
      case Unparsable => JArr([])
  }

  /** `get_auto_lock_setting()` */
  function ReadAutoLock(store: Store, available: bool): int {
    if !available || AutoLockSettingKey !in store then DefaultAutoLockSeconds
    else match store[AutoLockSettingKey]
      case Doc(JNum(n)) => n
      case _ => DefaultAutoLockSeconds   // int() of any other text raises
  }

  /** `save_auto_lock_setting(seconds)`; a missing backend is reported and ignored. */
  function WriteAutoLock(store: Store, available: bool, seconds: int): Store {
    if available then store[AutoLockSettingKey := Doc(JNum(seconds))] else store
  }

  /** A record written by `save_token_secret` reads back with exactly its fields. */
  lemma ReadTokenOfRecord(store: Store, id: string, t: TokenInput)
    requires id in store && store[id] == Doc(RecordDoc(t))
    ensures ReadToken(store, true, id) == Some(TokenInfo(id,
      JStr(t.accountName), JStr(t.issuerName), JStr(t.secretKey), JStr(t.tokenType),
      match t.recoveryCodes case Some(rc) => JStr(rc) case None => JNull))
  {
  }

  /**
   * Read-side defaults: a missing `type` reads as "TOTP", a missing
   * `recovery_codes` as "", while a stored null `recovery_codes` stays null.
   */
  lemma ReadTokenDefaults(store: Store, id: string, m: map<string, Json>)
    requires id in store && store[id] == Doc(JObj(m))
    ensures ReadToken(store, true, id).Some?
    ensures "type" !in m ==> ReadToken(store, true, id).value.tokenType == JStr("TOTP")
    ensures "type" in m ==> ReadToken(store, true, id).value.tokenType == m["type"]
    ensures "recovery_codes" !in m ==> ReadToken(store, true, id).value.recoveryCodes == JStr("")
    ensures "recovery_codes" in m && m["recovery_codes"] == JNull ==>
              ReadToken(store, true, id).value.recoveryCodes == JNull
    ensures "account_name" !in m ==> ReadToken(store, true, id).value.accountName == JNull
  {
  }

  /** The auto-lock setting reads back what was saved, and 300 when never saved. */
  lemma AutoLockRoundTrip(store: Store, seconds: int)
    ensures ReadAutoLock(WriteAutoLock(store, true, seconds), true) == seconds
    ensures AutoLockSettingKey !in store ==> ReadAutoLock(store, true) == DefaultAutoLockSeconds
    ensures ReadAutoLock(WriteAutoLock(store, false, seconds), false) == DefaultAutoLockSeconds
  {
  }

  // ---------------------------------------------------------------------
  // The accounts index

  /** Python's `identifier in accounts` on the decoded index; `None` means TypeError. */
  function IndexContains(index: Json, identifier: string): Option<bool> {
    match index
    case JArr(xs) => Some(JStr(identifier) in xs)
    case JObj(m) => Some(identifier in m)
    case JStr(s) => Some(IsSubstring(identifier, s))
    case _ => None
  }

  /** Position of the first occurrence of `x` in `xs`. */
  function FirstIndex<T(==)>(xs: seq<T>, x: T): (i: nat)
    requires x in xs
    ensures i < |xs| && xs[i] == x && x !in xs[..i]
  {
    if xs[0] == x then 0 else 1 + FirstIndex(xs[1..], x)
  }

  /** `list.remove(x)`: drops the first occurrence of `x`. */
  function RemoveFirst<T(==)>(xs: seq<T>, x: T): seq<T> {
    if x in xs then xs[..FirstIndex(xs, x)] + xs[FirstIndex(xs, x) + 1..] else xs
  }

  predicate Distinct<T(==)>(xs: seq<T>) {
    forall i, j :: 0 <= i < j < |xs| ==> xs[i] != xs[j]
  }

  /**
   * `_add_account_to_list(identifier)` as the new store, or `None` when it
   * raises (the index is not a list, so `append` or `in` fails).
   */
  function AddToIndex(store: Store, available: bool, identifier: string): Option<Store> {
    if !available then Some(store)   // the index write raises NoKeyringError, which is passed
    else match IndexContains(ReadIndex(store, true), identifier)
      case Some(true) => Some(store)
      case Some(false) =>
        if ReadIndex(store, true).JArr? then
          Some(store[AccountsListKey := Doc(JArr(ReadIndex(store, true).items + [JStr(identifier)]))])
        else None
      case None => None
  }

  /** `_remove_account_from_list(identifier)`, `None` when it raises. */
  function RemoveFromIndex(store: Store, available: bool, identifier: string): Option<Store> {
    if !available then Some(store)
    else match IndexContains(ReadIndex(store, true), identifier)
      case Some(false) => Some(store)
      case Some(true) =>
        if ReadIndex(store, true).JArr? then
          Some(store[AccountsListKey := Doc(JArr(RemoveFirst(ReadIndex(store, true).items, JStr(identifier))))])
        else None
      case None => None
  }

  /** Adding to a list index appends exactly when absent and keeps earlier entries in order. */
  lemma AddToIndexAppends(store: Store, identifier: string)
    requires ReadIndex(store, true).JArr?
    ensures AddToIndex(store, true, identifier).Some?
    ensures ReadIndex(AddToIndex(store, true, identifier).value, true) ==
      var xs := ReadIndex(store, true).items;
      JArr(if JStr(identifier) in xs then xs else xs + [JStr(identifier)])
    ensures forall k :: k != AccountsListKey && k in store ==>
      k in AddToIndex(store, true, identifier).value && AddToIndex(store, true, identifier).value[k] == store[k]
  {
  }

  /** Adding the same identifier twice changes nothing the second time. */
  lemma AddToIndexIdempotent(store: Store, identifier: string)
    requires ReadIndex(store, true).JArr?
    ensures AddToIndex(store, true, identifier).Some?
    ensures AddToIndex(AddToIndex(store, true, identifier).value, true, identifier)
            == AddToIndex(store, true, identifier)
  {
  }

  /** Removing from a duplicate-free list leaves the other entries, in order, and no trace of the identifier. */
  lemma {:induction false} RemoveFirstDistinct<T>(xs: seq<T>, x: T)
    requires Distinct(xs)
    ensures x !in RemoveFirst(xs, x)
    ensures Distinct(RemoveFirst(xs, x))
    ensures forall y :: y in RemoveFirst(xs, x) <==> y in xs && y != x
  {
    if x in xs {
      var i := FirstIndex(xs, x);
      var r := xs[..i] + xs[i + 1..];
      assert RemoveFirst(xs, x) == r;
      forall y ensures y in r <==> y in xs && y != x {
        if y in r {
          var k :| 0 <= k < |r| && r[k] == y;
          if k < i { assert xs[k] == y; } else { assert xs[k + 1] == y; }
        }
        if y in xs && y != x {
          var k :| 0 <= k < |xs| && xs[k] == y;
          if k < i { assert r[k] == y; } else { assert k != i; assert r[k - 1] == y; }
        }
      }
      forall a, b | 0 <= a < b < |r| ensures r[a] != r[b] {
        var a', b' := if a < i then a else a + 1, if b < i then b else b + 1;
        assert r[a] == xs[a'] && r[b] == xs[b'];
      }
    }
  }

  // ---------------------------------------------------------------------
  // Identifier generation

  /** `name.lower().replace(' ', '_')` */
  function IdentifierPart(name: string): string {
    ReplaceChar(Lower(name), ' ', '_')
  }

  /** The identifier tried first: `f"{issuer}_{account}"` of the normalised names. */
  function BaseIdentifier(issuer: string, account: string): string {
    IdentifierPart(issuer) + "_" + IdentifierPart(account)
  }

  /** The k-th identifier tried: the base, then `base_1`, `base_2`, ... */
  function Candidate(base: string, k: nat): string {
    if k == 0 then base else base + "_" + NatToString(k)
  }

  /** The loop's test `get_token_secret(temp_id) is not None`. */
  predicate Occupied(store: Store, available: bool, key: string) {
    ReadToken(store, available, key).Some?
  }

  /** Distinct indices give distinct candidates. */
  lemma CandidateDistinct(base: string, j: nat, k: nat)
    ensures j != k ==> Candidate(base, j) != Candidate(base, k)
  {
    if j != 0 && k != 0 && j != k {
      var p := base + "_";
      assert Candidate(base, j) == p + NatToString(j);
      assert Candidate(base, k) == p + NatToString(k);
      if Candidate(base, j) == Candidate(base, k) {
        assert NatToString(j) == Candidate(base, j)[|p|..] == Candidate(base, k)[|p|..] == NatToString(k);
        NatToStringInjective(j, k);
      }
    } else if j != k {
      assert |Candidate(base, j)| != |Candidate(base, k)|;
    }
  }

  /** The first `n` candidates. */
  function Candidates(base: string, n: nat): set<string> {
    if n == 0 then {} else Candidates(base, n - 1) + {Candidate(base, n - 1)}
  }

  lemma {:induction false} CandidatesCount(base: string, n: nat)
    ensures |Candidates(base, n)| == n
    ensures forall j :: 0 <= j < n ==> Candidate(base, j) in Candidates(base, n)
    ensures forall c :: c in Candidates(base, n) ==> exists j :: 0 <= j < n && c == Candidate(base, j)
  {
    if n > 0 {
      CandidatesCount(base, n - 1);
      forall j | 0 <= j < n - 1 ensures Candidate(base, n - 1) != Candidate(base, j) {
        CandidateDistinct(base, n - 1, j);
      }
      assert Candidate(base, n - 1) !in Candidates(base, n - 1);
    }
  }

  /** Pigeonhole: the store cannot hold more occupied candidates than it has keys. */
  lemma OccupiedBound(store: Store, available: bool, base: string, n: nat)
    requires forall j :: 0 <= j < n ==> Occupied(store, available, Candidate(base, j))
    ensures n <= |store|
  {
    CandidatesCount(base, n);
    forall c | c in Candidates(base, n) ensures c in store.Keys {
      var j :| 0 <= j < n && c == Candidate(base, j);
      assert Occupied(store, available, Candidate(base, j));
    }
    SubsetCardinality(Candidates(base, n), store.Keys);
    assert |store.Keys| == |store|;
  }

  lemma {:induction false} SubsetCardinality<T>(a: set<T>, b: set<T>)
    requires a <= b
    ensures |a| <= |b|
    decreases a
  {
    if a != {} {
      var x :| x in a;
      SubsetCardinality(a - {x}, b - {x});
    }
  }

  /**
   * The index the collision loop stops at, searching from `k`: the least
   * index at or after `k` whose candidate is free.  The search ends because
   * the store is finite.
   */
  function FreeIndex(store: Store, available: bool, base: string, k: nat): (r: nat)
    requires forall j :: 0 <= j < k ==> Occupied(store, available, Candidate(base, j))
    ensures k <= r
    ensures !Occupied(store, available, Candidate(base, r))
    ensures forall j :: 0 <= j < r ==> Occupied(store, available, Candidate(base, j))
    decreases |store| - k
  {
    if Occupied(store, available, Candidate(base, k)) then
      OccupiedBound(store, available, base, k + 1);
      FreeIndex(store, available, base, k + 1)
    else k
  }

  /** The identifier `save_token_secret` generates when none is given. */
  function NewIdentifier(store: Store, available: bool, issuer: string, account: string): string {
    Candidate(BaseIdentifier(issuer, account), FreeIndex(store, available, BaseIdentifier(issuer, account), 0))
  }

  /**
   * A generated identifier was free beforehand; it is the base when the
   * base is free, and otherwise `base_k` for the least free k >= 1.
   */
  lemma NewIdentifierIsLeastFree(store: Store, available: bool, issuer: string, account: string)
    ensures !Occupied(store, available, NewIdentifier(store, available, issuer, account))
    ensures var base := BaseIdentifier(issuer, account);
      !Occupied(store, available, base) ==> NewIdentifier(store, available, issuer, account) == base
    ensures var base := BaseIdentifier(issuer, account);
      Occupied(store, available, base) ==>
        exists k: nat :: 1 <= k && NewIdentifier(store, available, issuer, account) == base + "_" + NatToString(k)
          && forall j :: 0 <= j < k ==> Occupied(store, available, Candidate(base, j))
  {
    var base := BaseIdentifier(issuer, account);
    var k := FreeIndex(store, available, base, 0);
    if Occupied(store, available, base) {
      assert k != 0;
      assert NewIdentifier(store, available, issuer, account) == base + "_" + NatToString(k);
    }
  }

  // ---------------------------------------------------------------------
  // save_token_secret and delete_token_secret

  const EmptyFieldsMessage := "Account name, issuer name, and secret key cannot be empty."

  function UnsupportedTypeMessage(tokenType: string): string {
    "Unsupported token type: " + tokenType + ". Must be TOTP or HOTP."
  }

  /** `token_type.upper() in ["TOTP", "HOTP"]` */
  predicate SupportedType(tokenType: string) {
    Upper(tokenType) == "TOTP" || Upper(tokenType) == "HOTP"
  }

  predicate HasRequiredFields(t: TokenInput) {
    t.accountName != "" && t.issuerName != "" && t.secretKey != ""
  }

  /** The key `save_token_secret` writes: a given (non-empty) identifier, else a generated one. */
  function TargetKey(store: Store, available: bool, t: TokenInput, identifier: Option<string>): string {
    if identifier.Some? && identifier.value != "" then identifier.value
    else NewIdentifier(store, available, t.issuerName, t.accountName)
  }

  datatype SaveOutcome = SaveOutcome(result: Result<string>, store: Store)

  /**
   * `save_token_secret(...)`: the identifier returned (or the error raised)
   * and the store afterwards.  A failing index update raises after the
   * record has been written.
   */
  function Save(store: Store, available: bool, t: TokenInput, identifier: Option<string>): SaveOutcome {
    if !HasRequiredFields(t) then SaveOutcome(Err(InvalidInput(EmptyFieldsMessage)), store)
    else if !SupportedType(t.tokenType) then
      SaveOutcome(Err(InvalidInput(UnsupportedTypeMessage(t.tokenType))), store)
    else if !available then SaveOutcome(Err(StorageUnavailable), store)
    else
      var key := TargetKey(store, available, t, identifier);
      var written := store[key := Doc(RecordDoc(t))];
      match AddToIndex(written, true, key)
      case Some(updated) => SaveOutcome(Ok(key), updated)
      case None => SaveOutcome(Err(IndexUpdateFailed), written)
  }

  datatype DeleteOutcome = DeleteOutcome(raised: bool, store: Store)

  /**
   * `delete_token_secret(identifier)`.  The record is deleted when present;
   * the index entry is removed on that path and also on the
   * PasswordDeleteError path (no such record).  An index failure is
   * swallowed on the first path and escapes on the second.
   */
  function Delete(store: Store, available: bool, identifier: string): DeleteOutcome {
    if !available then DeleteOutcome(false, store)
    else if identifier in store then
      var removed := store - {identifier};
      DeleteOutcome(false, RemoveFromIndex(removed, true, identifier).GetOr(removed))
    else
      match RemoveFromIndex(store, true, identifier)
      case Some(updated) => DeleteOutcome(false, updated)
      case None => DeleteOutcome(true, store)
  }

  /** Empty account, issuer or secret: ValueError, and nothing is written. */
  lemma SaveRejectsMissingFields(store: Store, available: bool, t: TokenInput, identifier: Option<string>)
    requires !HasRequiredFields(t)
    ensures Save(store, available, t, identifier) == SaveOutcome(Err(InvalidInput(EmptyFieldsMessage)), store)
  {
  }

  /**
   * The type check ignores case but the type is stored as given: an
   * unsupported type is a ValueError with nothing written, and a supported
   * one, say "totp", is what the record holds.
   */
  lemma SaveChecksTypeIgnoringCase(store: Store, t: TokenInput, identifier: Option<string>)
    requires HasRequiredFields(t)
    ensures !SupportedType(t.tokenType) ==>
      Save(store, true, t, identifier) == SaveOutcome(Err(InvalidInput(UnsupportedTypeMessage(t.tokenType))), store)
    ensures SupportedType("totp") && SupportedType("Hotp") && !SupportedType("TOTP1")
    ensures SupportedType(t.tokenType) ==>
      var key := TargetKey(store, true, t, identifier);
      key in Save(store, true, t, identifier).store &&
      Save(store, true, t, identifier).store[key] == Doc(RecordDoc(t)) &&
      RecordDoc(t).fields["type"] == JStr(t.tokenType)
  {
    assert Upper("totp") == "TOTP";
    assert Upper("Hotp") == "HOTP";
    assert Upper("TOTP1") != "TOTP" && Upper("TOTP1") != "HOTP" by {
      assert |Upper("TOTP1")| == 5;
    }
    if SupportedType(t.tokenType) {
      var key := TargetKey(store, true, t, identifier);
      var written := store[key := Doc(RecordDoc(t))];
      assert key != AccountsListKey ==> AddToIndex(written, true, key).GetOr(written)[key] == written[key];
      if key == AccountsListKey {
        assert ReadIndex(written, true) == RecordDoc(t);
        assert AddToIndex(written, true, key).None? || AddToIndex(written, true, key) == Some(written);
      }
    }
  }

  /** With an explicit identifier, save writes exactly that key and returns it unchanged. */
  lemma SaveWithIdentifier(store: Store, t: TokenInput, id: string)
    requires HasRequiredFields(t) && SupportedType(t.tokenType) && id != ""
    requires id != AccountsListKey && ReadIndex(store, true).JArr?
    ensures Save(store, true, t, Some(id)).result == Ok(id)
    ensures id in Save(store, true, t, Some(id)).store
    ensures Save(store, true, t, Some(id)).store[id] == Doc(RecordDoc(t))
    ensures forall k :: k in store && k != id && k != AccountsListKey ==>
      k in Save(store, true, t, Some(id)).store && Save(store, true, t, Some(id)).store[k] == store[k]
  {
    var written := store[id := Doc(RecordDoc(t))];
    assert ReadIndex(written, true) == ReadIndex(store, true);
    AddToIndexAppends(written, id);
  }

  /**
   * A save without an identifier never replaces a stored record: every key
   * that `get_token_secret` found before holds the same text afterwards.
   */
  lemma SaveWithoutIdentifierKeepsRecords(store: Store, available: bool, t: TokenInput)
    ensures forall k :: Occupied(store, available, k) ==>
      k in Save(store, available, t, None).store && Save(store, available, t, None).store[k] == store[k]
  {
    var out := Save(store, available, t, None);
    if HasRequiredFields(t) && SupportedType(t.tokenType) && available {
      var key := NewIdentifier(store, true, t.issuerName, t.accountName);
      NewIdentifierIsLeastFree(store, true, t.issuerName, t.accountName);
      var written := store[key := Doc(RecordDoc(t))];
      forall k | Occupied(store, available, k) ensures k in out.store && out.store[k] == store[k] {
        assert k != key;
        if k == AccountsListKey {
          assert ReadIndex(written, true) == store[k].doc;
          assert !ReadIndex(written, true).JArr?;
        }
      }
    }
  }

  // ---------------------------------------------------------------------
  // The vault invariant

  /** The decoded index as a list, `[]` when it is not one. */
  function Items(store: Store): seq<Json> {
    match ReadIndex(store, true)
    case JArr(xs) => xs
    case _ => []
  }

  /** The identifiers in the index, in index order. */
  function Identifiers(store: Store): (ids: seq<string>)
    ensures |ids| == |Items(store)|
  {
    seq(|Items(store)|, i requires 0 <= i < |Items(store)| =>
      match Items(store)[i] case JStr(s) => s case _ => "")
  }

  /**
   * The index is a duplicate-free list of strings, naming exactly the keys
   * that hold records; every non-reserved key holds a JSON object; the
   * auto-lock key holds no object.
   */
  predicate ValidStore(store: Store) {
    && ReadIndex(store, true).JArr?
    && Distinct(Items(store))
    && (forall i :: 0 <= i < |Items(store)| ==>
          Items(store)[i].JStr? && Items(store)[i].s in store && !IsReserved(Items(store)[i].s))
    && (forall k :: k in store && !IsReserved(k) ==>
          store[k].Doc? && store[k].doc.JObj? && JStr(k) in Items(store))
    && (AutoLockSettingKey in store ==> !(store[AutoLockSettingKey].Doc? && store[AutoLockSettingKey].doc.JObj?))
  }

  /** Index consistency: an identifier is listed iff `get_token_secret` finds its record. */
  lemma IndexConsistency(store: Store)
    requires ValidStore(store)
    ensures forall id :: JStr(id) in Items(store) <==> Occupied(store, true, id)
    ensures Distinct(Identifiers(store))
    ensures forall id :: id in Identifiers(store) <==> Occupied(store, true, id)
  {
    var xs := Items(store);
    forall id ensures JStr(id) in xs <==> Occupied(store, true, id) {
      if JStr(id) in xs {
        var i :| 0 <= i < |xs| && xs[i] == JStr(id);
        assert id in store && !IsReserved(id);
      }
      if Occupied(store, true, id) {
        assert AccountsListKey in store && store[AccountsListKey].Doc? ==>
          store[AccountsListKey].doc == ReadIndex(store, true);
      }
    }
    var ids := Identifiers(store);
    forall i | 0 <= i < |xs| ensures xs[i] == JStr(ids[i]) { }
    forall i, j | 0 <= i < j < |ids| ensures ids[i] != ids[j] {
      assert xs[i] != xs[j];
    }
    forall id ensures id in ids <==> JStr(id) in xs {
      if id in ids { var i :| 0 <= i < |ids| && ids[i] == id; assert xs[i] == JStr(id); }
      if JStr(id) in xs { var i :| 0 <= i < |xs| && xs[i] == JStr(id); assert ids[i] == id; }
    }
  }

  /** The empty store, where the app starts, satisfies the invariant. */
  lemma EmptyStoreValid()
    ensures ValidStore(map[])
  {
  }

  /** Overwriting a listed record with another object keeps the invariant and the index. */
  lemma ValidAfterReplace(store: Store, key: string, rec: Json)
    requires ValidStore(store) && !IsReserved(key) && rec.JObj? && JStr(key) in Items(store)
    ensures ValidStore(store[key := Doc(rec)])
    ensures Items(store[key := Doc(rec)]) == Items(store)
  {
    var out := store[key := Doc(rec)];
    assert ReadIndex(out, true) == ReadIndex(store, true);
  }

  /** Writing a new record and appending its key to the index keeps the invariant. */
  lemma ValidAfterInsert(store: Store, key: string, rec: Json)
    requires ValidStore(store) && !IsReserved(key) && rec.JObj? && JStr(key) !in Items(store)
    ensures var out := store[key := Doc(rec)][AccountsListKey := Doc(JArr(Items(store) + [JStr(key)]))];
      ValidStore(out) && Items(out) == Items(store) + [JStr(key)]
  {
    var xs := Items(store);
    var ys := xs + [JStr(key)];
    var out := store[key := Doc(rec)][AccountsListKey := Doc(JArr(ys))];
    assert ReadIndex(out, true) == JArr(ys);
    assert Items(out) == ys;
    forall i, j | 0 <= i < j < |ys| ensures ys[i] != ys[j] {
      if j == |xs| { assert ys[i] == xs[i]; }
    }
    forall i | 0 <= i < |ys| ensures ys[i].JStr? && ys[i].s in out && !IsReserved(ys[i].s) {
      if i < |xs| { assert ys[i] == xs[i]; }
    }
    forall k | k in out && !IsReserved(k) ensures out[k].Doc? && out[k].doc.JObj? && JStr(k) in ys {
      if k != key { assert k in store; assert JStr(k) in xs; }
    }
  }

  /**
   * Save preserves the invariant unless it writes a reserved key.  The key
   * ends up in the index exactly once: appended when new (always, for a
   * generated key), left in place when already listed.  No other record
   * changes.
   */
  lemma SaveKeepsValid(store: Store, t: TokenInput, identifier: Option<string>)
    requires ValidStore(store) && HasRequiredFields(t) && SupportedType(t.tokenType)
    requires !IsReserved(TargetKey(store, true, t, identifier))
    ensures var key := TargetKey(store, true, t, identifier);
      var out := Save(store, true, t, identifier);
      && out.result == Ok(key)
      && ValidStore(out.store)
      && key in out.store && out.store[key] == Doc(RecordDoc(t))
      && Items(out.store) == (if JStr(key) in Items(store) then Items(store) else Items(store) + [JStr(key)])
      && (identifier.None? ==> JStr(key) !in Items(store))
      && (forall k :: k in store && k != key && k != AccountsListKey ==> k in out.store && out.store[k] == store[k])
  {
    var key := TargetKey(store, true, t, identifier);
    var written := store[key := Doc(RecordDoc(t))];
    assert ReadIndex(written, true) == ReadIndex(store, true);
    AddToIndexAppends(written, key);
    if JStr(key) in Items(store) {
      assert AddToIndex(written, true, key) == Some(written);
      ValidAfterReplace(store, key, RecordDoc(t));
    } else {
      assert AddToIndex(written, true, key)
        == Some(written[AccountsListKey := Doc(JArr(Items(store) + [JStr(key)]))]);
      ValidAfterInsert(store, key, RecordDoc(t));
    }
    if identifier.None? {
      NewIdentifierIsLeastFree(store, true, t.issuerName, t.accountName);
      IndexConsistency(store);
    }
  }

  /**
   * Delete removes the identifier from a list index on both of its paths:
   * when the record exists and when the store reports it missing
   * (PasswordDeleteError).  The other entries keep their order.
   */
  lemma DeleteCleansIndex(store: Store, id: string)
    requires ReadIndex(store, true).JArr? && id != AccountsListKey
    ensures var out := Delete(store, true, id);
      && !out.raised
      && id !in out.store
      && Items(out.store) == RemoveFirst(Items(store), JStr(id))
      && (forall k :: k in store && k != id && k != AccountsListKey ==> k in out.store && out.store[k] == store[k])
  {
    if id in store {
      var removed := store - {id};
      assert ReadIndex(removed, true) == ReadIndex(store, true);
    }
  }

  /** Dropping a listed record and its index entry keeps the invariant. */
  lemma ValidAfterRemove(store: Store, id: string)
    requires ValidStore(store) && !IsReserved(id) && id in store
    ensures var out := (store - {id})[AccountsListKey := Doc(JArr(RemoveFirst(Items(store), JStr(id))))];
      ValidStore(out) && Items(out) == RemoveFirst(Items(store), JStr(id))
  {
    var xs := Items(store);
    var ys := RemoveFirst(xs, JStr(id));
    var out := (store - {id})[AccountsListKey := Doc(JArr(ys))];
    assert ReadIndex(out, true) == JArr(ys);
    assert Items(out) == ys;
    RemoveFirstDistinct(xs, JStr(id));
    forall i | 0 <= i < |ys| ensures ys[i].JStr? && ys[i].s in out && !IsReserved(ys[i].s) {
      assert ys[i] in xs;
      var j :| 0 <= j < |xs| && xs[j] == ys[i];
    }
    forall k | k in out && !IsReserved(k) ensures out[k].Doc? && out[k].doc.JObj? && JStr(k) in ys {
      assert k in store && k != id;
    }
  }

  /**
   * Delete preserves the invariant for any non-reserved identifier, and
   * afterwards neither a record nor an index entry remains.
   */
  lemma DeleteKeepsValid(store: Store, id: string)
    requires ValidStore(store) && !IsReserved(id)
    ensures ValidStore(Delete(store, true, id).store)
    ensures id !in Delete(store, true, id).store
    ensures JStr(id) !in Items(Delete(store, true, id).store)
  {
    DeleteCleansIndex(store, id);
    RemoveFirstDistinct(Items(store), JStr(id));
    if id in store {
      var removed := store - {id};
      assert ReadIndex(removed, true) == ReadIndex(store, true);
      IndexConsistency(store);
      assert JStr(id) in Items(store);
      ValidAfterRemove(store, id);
    } else {
      assert forall i :: 0 <= i < |Items(store)| ==> Items(store)[i] != JStr(id);
      assert Delete(store, true, id).store == store;
    }
  }

  /**
   * A save aimed at the accounts-index key (given or generated) overwrites
   * the index with the record and then raises: the record has no list to
   * append to, and no index remains.
   */
  lemma SaveOverIndexFails(store: Store, t: TokenInput, identifier: Option<string>)
    requires HasRequiredFields(t) && SupportedType(t.tokenType)
    requires TargetKey(store, true, t, identifier) == AccountsListKey
    ensures Save(store, true, t, identifier).result == Err(IndexUpdateFailed)
    ensures !ReadIndex(Save(store, true, t, identifier).store, true).JArr?
  {
    var written := store[AccountsListKey := Doc(RecordDoc(t))];
    assert ReadIndex(written, true) == RecordDoc(t);
    assert AccountsListKey !in RecordDoc(t).fields;
    assert AddToIndex(written, true, AccountsListKey).None?;
  }

  /**
   * The reserved keys share the namespace with records.  Issuer "_" and
   * account "accounts_list__" generate the accounts-index key; the index text
   * is a JSON list, so `get_token_secret` finds no record there and the
   * collision loop takes the key as free.
   */
  lemma AccountsListKeyCollision(store: Store, secret: string)
    requires ReadIndex(store, true).JArr? && secret != ""
    ensures BaseIdentifier("_", "accounts_list__") == AccountsListKey
    ensures NewIdentifier(store, true, "_", "accounts_list__") == AccountsListKey
    ensures var out := Save(store, true, TokenInput("accounts_list__", "_", secret, "TOTP", None), None);
      out.result == Err(IndexUpdateFailed) && !ReadIndex(out.store, true).JArr?
  {
    GeneratesReserved(store, "_", "accounts_list__", AccountsListKey);
    SupportedTotp();
    SaveOverIndexFails(store, TokenInput("accounts_list__", "_", secret, "TOTP", None), None);
  }

  /**
   * A save aimed at the auto-lock key succeeds, lists the reserved key as a
   * token and turns the setting back into the default.
   */
  lemma SaveOverAutoLock(store: Store, t: TokenInput, identifier: Option<string>)
    requires ReadIndex(store, true).JArr? && HasRequiredFields(t) && SupportedType(t.tokenType)
    requires TargetKey(store, true, t, identifier) == AutoLockSettingKey
    ensures var out := Save(store, true, t, identifier);
      && out.result == Ok(AutoLockSettingKey)
      && ReadAutoLock(out.store, true) == DefaultAutoLockSeconds
      && JStr(AutoLockSettingKey) in Items(out.store)
      && !ValidStore(out.store)
  {
    var written := store[AutoLockSettingKey := Doc(RecordDoc(t))];
    assert ReadIndex(written, true) == ReadIndex(store, true);
    AddToIndexAppends(written, AutoLockSettingKey);
    var out := AddToIndex(written, true, AutoLockSettingKey).value;
    assert out[AutoLockSettingKey] == Doc(RecordDoc(t));
    var ys := Items(out);
    assert JStr(AutoLockSettingKey) in ys;
    var i :| 0 <= i < |ys| && ys[i] == JStr(AutoLockSettingKey);
    assert IsReserved(ys[i].s);
  }

  /**
   * Likewise issuer "_" and account "auto_lock_timeout_seconds__" generate the
   * auto-lock key, which holds a number and so no record.
   */
  lemma AutoLockKeyCollision(store: Store, secret: string)
    requires ReadIndex(store, true).JArr? && secret != ""
    requires !Occupied(store, true, AutoLockSettingKey)
    ensures NewIdentifier(store, true, "_", "auto_lock_timeout_seconds__") == AutoLockSettingKey
    ensures var out := Save(store, true, TokenInput("auto_lock_timeout_seconds__", "_", secret, "TOTP", None), None);
      && out.result == Ok(AutoLockSettingKey)
      && ReadAutoLock(out.store, true) == DefaultAutoLockSeconds
      && JStr(AutoLockSettingKey) in Items(out.store)
      && !ValidStore(out.store)
  {
    GeneratesReserved(store, "_", "auto_lock_timeout_seconds__", AutoLockSettingKey);
    SupportedTotp();
    SaveOverAutoLock(store, TokenInput("auto_lock_timeout_seconds__", "_", secret, "TOTP", None), None);
  }

  lemma SupportedTotp()
    ensures SupportedType("TOTP")
  {
    assert Upper("TOTP") == "TOTP";
  }

  /**
   * When `issuer_account` of two plain names is a key with no JSON object
   * behind it, the loop takes that key.
   */
  lemma GeneratesReserved(store: Store, issuer: string, account: string, key: string)
    requires forall i :: 0 <= i < |issuer| ==> issuer[i] == '_' || IsAsciiLower(issuer[i])
    requires forall i :: 0 <= i < |account| ==> account[i] == '_' || IsAsciiLower(account[i])
    requires issuer + "_" + account == key
    requires !Occupied(store, true, key)
    ensures BaseIdentifier(issuer, account) == key
    ensures NewIdentifier(store, true, issuer, account) == key
  {
    IdentifierPartFixed(issuer);
    IdentifierPartFixed(account);
    assert !Occupied(store, true, Candidate(key, 0));
    assert FreeIndex(store, true, key, 0) == 0;
  }

  /** A name of lower-case letters and `_` passes through the identifier normalisation unchanged. */
  lemma IdentifierPartFixed(name: string)
    requires forall i :: 0 <= i < |name| ==> name[i] == '_' || IsAsciiLower(name[i])
    ensures IdentifierPart(name) == name
  {
    assert Lower(name) == name;
    assert ReplaceChar(name, ' ', '_') == name;
  }

  // ---------------------------------------------------------------------
  // get_all_token_data

  /** The listing's filter: account, secret and issuer are all truthy. */
  predicate Complete(info: TokenInfo) {
    Truthy(info.accountName) && Truthy(info.secretKey) && Truthy(info.issuerName)
  }

  /**
   * What one index entry contributes to the listing.  An entry that is not
   * a string makes the store lookup fail, and `get_token_secret` turns that
   * failure into `None`.
   */
  function Loaded(store: Store, available: bool, item: Json): Option<TokenInfo> {
    match item
    case JStr(id) =>
      (match ReadToken(store, available, id)
       case Some(info) => if Complete(info) then Some(info) else None
       case None => None)
    case _ => None
  }

  /** The records the loop collects from the index entries, in index order. */
  function Collect(store: Store, available: bool, items: seq<Json>): seq<TokenInfo> {
    if items == [] then []
    else
      var prefix := Collect(store, available, items[..|items| - 1]);
      match Loaded(store, available, items[|items| - 1])
      case Some(info) => prefix + [info]
      case None => prefix
  }

  /**
   * The values `for x in index` visits: the elements of a list, the
   * one-character strings of a string; `None` when the iteration raises
   * (null, booleans, numbers).  An object is treated as raising as well:
   * Python visits its keys in insertion order, which a map does not keep.
   */
  function Iterated(index: Json): Option<seq<Json>> {
    match index
    case JArr(xs) => Some(xs)
    case JStr(s) => Some(seq(|s|, i requires 0 <= i < |s| => JStr([s[i]])))
    case _ => None
  }

  /** `get_all_token_data()`; `None` when iterating the decoded index raises. */
  function AllTokenData(store: Store, available: bool): Option<seq<TokenInfo>> {
    match Iterated(ReadIndex(store, available))
    case Some(xs) => Some(Collect(store, available, xs))
    case None => None
  }

  /** Every listed token is complete, comes from an index entry and is what `get_token_secret` returns for it. */
  lemma {:induction false} CollectSound(store: Store, available: bool, items: seq<Json>)
    ensures |Collect(store, available, items)| <= |items|
    ensures forall info :: info in Collect(store, available, items) ==>
      && Complete(info)
      && JStr(info.identifier) in items
      && ReadToken(store, available, info.identifier) == Some(info)
  {
    if items != [] {
      var init := items[..|items| - 1];
      CollectSound(store, available, init);
      forall info | info in Collect(store, available, items)
        ensures Complete(info) && JStr(info.identifier) in items
        ensures ReadToken(store, available, info.identifier) == Some(info)
      {
        if info in Collect(store, available, init) {
          assert JStr(info.identifier) in init;
        } else {
          assert items[|items| - 1] == JStr(info.identifier);
        }
      }
    }
  }

  /** Every index entry whose record is complete is listed. */
  lemma {:induction false} CollectComplete(store: Store, available: bool, items: seq<Json>, id: string)
    requires JStr(id) in items
    requires ReadToken(store, available, id).Some? && Complete(ReadToken(store, available, id).value)
    ensures ReadToken(store, available, id).value in Collect(store, available, items)
  {
    var init := items[..|items| - 1];
    if JStr(id) in init {
      CollectComplete(store, available, init, id);
    } else {
      assert items[|items| - 1] == JStr(id);
    }
  }

  /** The listed tokens other than those named `id`, in order. */
  function Without(infos: seq<TokenInfo>, id: string): (r: seq<TokenInfo>)
    ensures |r| <= |infos|
  {
    if infos == [] then []
    else
      var prefix := Without(infos[..|infos| - 1], id);
      if infos[|infos| - 1].identifier == id then prefix else prefix + [infos[|infos| - 1]]
  }

  /**
   * Corruption of one record does not break the listing: it loses exactly
   * the token(s) read from that key, and the others stay in order.
   */
  lemma {:induction false} CollectSkipsCorrupt(store: Store, available: bool, items: seq<Json>, id: string)
    requires id != AccountsListKey
    ensures Collect(store[id := Unparsable], available, items) == Without(Collect(store, available, items), id)
  {
    if items != [] {
      var init := items[..|items| - 1];
      CollectSkipsCorrupt(store, available, init, id);
      CollectSound(store, available, items);
      var corrupt := store[id := Unparsable];
      var last := items[|items| - 1];
      var full := Collect(store, available, items);
      if Loaded(store, available, last).Some? {
        var info := Loaded(store, available, last).value;
        assert full == Collect(store, available, init) + [info];
        assert full[..|full| - 1] == Collect(store, available, init);
        if last.s == id {
          assert Loaded(corrupt, available, last).None?;
        } else {
          assert Loaded(corrupt, available, last) == Some(info);
        }
      } else {
        assert Loaded(corrupt, available, last).None?;
      }
    }
  }

  /** A listing of an unreadable index record reads back as the same listing. */
  lemma AllTokenDataSkipsCorrupt(store: Store, available: bool, id: string)
    requires id != AccountsListKey
    ensures ReadIndex(store[id := Unparsable], available) == ReadIndex(store, available)
    ensures AllTokenData(store, available).Some? ==>
      AllTokenData(store[id := Unparsable], available) == Some(Without(AllTokenData(store, available).value, id))
  {
    assert ReadIndex(store[id := Unparsable], available) == ReadIndex(store, available);
    if AllTokenData(store, available).Some? {
      CollectSkipsCorrupt(store, available, Iterated(ReadIndex(store, available)).value, id);
    }
  }

  /**
   * On a valid vault the listing succeeds and holds exactly the complete
   * records.
   */
  lemma ListingOfValid(store: Store)
    requires ValidStore(store)
    ensures AllTokenData(store, true).Some?
    ensures forall info :: info in AllTokenData(store, true).value ==>
      Complete(info) && ReadToken(store, true, info.identifier) == Some(info)
    ensures forall id :: Occupied(store, true, id) && Complete(ReadToken(store, true, id).value) ==>
      ReadToken(store, true, id).value in AllTokenData(store, true).value
  {
    CollectSound(store, true, Items(store));
    IndexConsistency(store);
    forall id | Occupied(store, true, id) && Complete(ReadToken(store, true, id).value)
      ensures ReadToken(store, true, id).value in AllTokenData(store, true).value
    {
      CollectComplete(store, true, Items(store), id);
    }
  }

  /** The loop stops at the first free candidate, so it agrees with `FreeIndex`. */
  lemma FreeIndexIsFirstFree(store: Store, available: bool, base: string, k: nat)
    requires forall j :: 0 <= j < k ==> Occupied(store, available, Candidate(base, j))
    requires !Occupied(store, available, Candidate(base, k))
    ensures FreeIndex(store, available, base, 0) == k
  {
    var r := FreeIndex(store, available, base, 0);
    assert !(r < k) && !(k < r);
  }

  // ---------------------------------------------------------------------
  // The vault as the application uses it

  /** The keyring service namespace the functions of core/secure_storage.py read and write. */
  class Vault {
    var store: Store
    const available: bool

    constructor (initial: Store, available: bool)
      ensures store == initial && this.available == available
    {
      store := initial;
      this.available := available;
    }

    /** `_add_account_to_list(identifier)`; `raised` when it raises, with nothing written. */
    method AddAccountToList(identifier: string) returns (raised: bool)
      modifies this
      ensures AddToIndex(old(store), available, identifier) == (if raised then None else Some(store))
      ensures raised ==> store == old(store)
    {
      if !available {
        return false;
      }
      var accounts := ReadIndex(store, true);
      var contained := IndexContains(accounts, identifier);
      if contained.None? {
        return true;
      }
      if !contained.value {
        if !accounts.JArr? {
          return true;
        }
        store := store[AccountsListKey := Doc(JArr(accounts.items + [JStr(identifier)]))];
      }
      return false;
    }

    /** `_remove_account_from_list(identifier)` */
    method RemoveAccountFromList(identifier: string) returns (raised: bool)
      modifies this
      ensures RemoveFromIndex(old(store), available, identifier) == (if raised then None else Some(store))
      ensures raised ==> store == old(store)
    {
      if !available {
        return false;
      }
      var accounts := ReadIndex(store, true);
      var contained := IndexContains(accounts, identifier);
      if contained.None? {
        return true;
      }
      if contained.value {
        if !accounts.JArr? {
          return true;
        }
        store := store[AccountsListKey := Doc(JArr(RemoveFirst(accounts.items, JStr(identifier))))];
      }
      return false;
    }

    /**
     * `save_token_secret(...)`, with the collision loop over `base`,
     * `base_1`, `base_2`, ...
     */
    method SaveTokenSecret(t: TokenInput, identifier: Option<string>) returns (r: Result<string>)
      modifies this
      ensures SaveOutcome(r, store) == Save(old(store), available, t, identifier)
    {
      if !HasRequiredFields(t) {
        return Err(InvalidInput(EmptyFieldsMessage));
      }
      if !SupportedType(t.tokenType) {
        return Err(InvalidInput(UnsupportedTypeMessage(t.tokenType)));
      }
      var current: string;
      if identifier.Some? && identifier.value != "" {
        current := identifier.value;
      } else {
        var base := BaseIdentifier(t.issuerName, t.accountName);
        var temp := base;
        var count := 1;
        while ReadToken(store, available, temp).Some?
          invariant store == old(store)
          invariant count >= 1
          invariant temp == Candidate(base, count - 1)
          invariant forall j :: 0 <= j < count - 1 ==> Occupied(store, available, Candidate(base, j))
          decreases |store| + 1 - count
        {
          OccupiedBound(store, available, base, count);
          temp := base + "_" + NatToString(count);
          count := count + 1;
        }
        FreeIndexIsFirstFree(store, available, base, count - 1);
        current := temp;
      }
      if !available {
        return Err(StorageUnavailable);
      }
      store := store[current := Doc(RecordDoc(t))];
      var raised := AddAccountToList(current);
      if raised {
        return Err(IndexUpdateFailed);
      }
      return Ok(current);
    }

    /** `delete_token_secret(identifier)`; `raised` when the exception escapes. */
    method DeleteTokenSecret(identifier: string) returns (raised: bool)
      modifies this
      ensures DeleteOutcome(raised, store) == Delete(old(store), available, identifier)
    {
      if !available {
        return false;
      }
      if identifier in store {
        store := store - {identifier};
        var ignored := RemoveAccountFromList(identifier);
        return false;
      }
      raised := RemoveAccountFromList(identifier);
    }

    /** `save_auto_lock_setting(seconds)` */
    method SaveAutoLockSetting(seconds: int)
      modifies this
      ensures store == WriteAutoLock(old(store), available, seconds)
    {
      if available {
        store := store[AutoLockSettingKey := Doc(JNum(seconds))];
      }
    }

    /** `get_all_token_data()`: the loop over the index that builds the listing. */
    method GetAllTokenData() returns (r: Option<seq<TokenInfo>>)
      ensures r == AllTokenData(store, available)
      ensures r.Some? ==> forall info :: info in r.value ==>
        Complete(info) && ReadToken(store, available, info.identifier) == Some(info)
    {
      var identifiers := Iterated(ReadIndex(store, available));
      if identifiers.None? {
        return None;
      }
      var items := identifiers.value;
      var all: seq<TokenInfo> := [];
      var i := 0;
      while i < |items|
        invariant 0 <= i <= |items|
        invariant all == Collect(store, available, items[..i])
      {
        var tokenInfo := match items[i] case JStr(id) => ReadToken(store, available, id) case _ => None;
        if tokenInfo.Some? && Complete(tokenInfo.value) {
          all := all + [tokenInfo.value];
        }
        assert items[..i + 1][..i] == items[..i];
        i := i + 1;
      }
      assert items[..|items|] == items;
      CollectSound(store, available, items);
      return Some(all);
    }
  }
}
