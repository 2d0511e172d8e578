/**
 * The application PIN of core/app_lock.py: a salted PBKDF2 hash of the PIN
 * and its salt, both stored as hex text in their own keyring service.
 * The hash is PBKDF2-HMAC-SHA256 of the UTF-8 PIN, 100000 iterations; it is
 * a parameter of the model, as is the random salt.
 */
module AppLock {
  import opened Wrappers
  import opened Text

  const ServiceName := "Python2FAApp_Lock"
  const PinHashKey := "app_pin_hash"
  const SaltKey := "app_pin_salt"
  const Pbkdf2Iterations := 100000
  const MinPinLength := 4
  const SaltLength := 16
  const DigestLength := 32

  newtype byte = x: int | 0 <= x < 256

  /** `os.urandom(16)` */
  type Salt = s: seq<byte> | |s| == SaltLength witness seq(SaltLength, i => 0 as byte)

  /** The 32 bytes of a SHA-256 based PBKDF2 derivation. */
  type Digest = s: seq<byte> | |s| == DigestLength witness seq(DigestLength, i => 0 as byte)

  /** `_hash_pin(pin, salt)` */
  type PinHash = (string, seq<byte>) -> Digest

  // ---------------------------------------------------------------------
  // Hex text, as `bytes.hex()` writes it and `bytes.fromhex` reads it

  function HexDigit(d: nat): (c: char)
    requires d < 16
  {
    if d < 10 then ('0' as int + d) as char else ('a' as int + d - 10) as char
  }

  /** The value of a hex digit of either case. */
  function HexValue(c: char): (r: int)
    ensures -1 <= r < 16
  {
    if '0' <= c <= '9' then c as int - '0' as int
    else if 'a' <= c <= 'f' then c as int - 'a' as int + 10
    else if 'A' <= c <= 'F' then c as int - 'A' as int + 10
    else -1
  }

  /** `b.hex()`: two lower-case digits per byte. */
  function Hex(b: seq<byte>): (s: string)
    ensures |s| == 2 * |b|
  {
    if b == [] then [] else [HexDigit(b[0] as int / 16), HexDigit(b[0] as int % 16)] + Hex(b[1..])
  }

  /**
   * `bytes.fromhex(s)`: pairs of hex digits, with whitespace allowed before
   * each pair; `None` where Python raises ValueError.
   */
  function FromHex(s: string): Option<seq<byte>>
  {
    if s == [] then Some([])
    else if IsSpace(s[0]) then FromHex(s[1..])
    else if |s| < 2 || HexValue(s[0]) < 0 || HexValue(s[1]) < 0 then None
    else match FromHex(s[2..])
      case Some(rest) => Some([(HexValue(s[0]) * 16 + HexValue(s[1])) as byte] + rest)
      case None => None
  }

  lemma HexDigitValue(d: nat)
    requires d < 16
    ensures HexValue(HexDigit(d)) == d && !IsSpace(HexDigit(d))
  {
  }

  /** Hex encoding round-trips: what `set_app_pin` writes, `verify_app_pin` decodes back. */
  lemma {:induction false} FromHexOfHex(b: seq<byte>)
    ensures FromHex(Hex(b)) == Some(b)
  {
    if b != [] {
      var hi, lo := b[0] as int / 16, b[0] as int % 16;
      HexDigitValue(hi);
      HexDigitValue(lo);
      var s := Hex(b);
      assert s[2..] == Hex(b[1..]);
      FromHexOfHex(b[1..]);
      assert (hi * 16 + lo) as byte == b[0];
      assert [b[0]] + b[1..] == b;
    }
  }

  // ---------------------------------------------------------------------
  // The PIN service

  /** `is_pin_set()`: both values are present, whatever their text. */
  predicate IsPinSet(entries: map<string, string>, available: bool) {
    available && SaltKey in entries && PinHashKey in entries
  }

  /**
   * `verify_app_pin(pin)`: false when either value is missing or empty, or
   * is not hex text; otherwise whether the hash of the attempt equals the
   * stored hash.
   */
  predicate VerifyPin(entries: map<string, string>, available: bool, hash: PinHash, pin: string) {
    && available
    && SaltKey in entries && entries[SaltKey] != ""
    && PinHashKey in entries && entries[PinHashKey] != ""
    && FromHex(entries[SaltKey]).Some?
    && FromHex(entries[PinHashKey]).Some?
    && hash(pin, FromHex(entries[SaltKey]).value) == FromHex(entries[PinHashKey]).value
  }

  /** The two writes of `set_app_pin`: first the salt, then the hash, as hex. */
  function WritePin(entries: map<string, string>, hash: PinHash, pin: string, salt: Salt): map<string, string> {
    entries[SaltKey := Hex(salt)][PinHashKey := Hex(hash(pin, salt))]
  }

  datatype SetPinResult =
    | PinSet
    | PinTooShort     // ValueError("PIN must be at least 4 digits long.")
    | LockUnavailable // NoKeyringError, re-raised

  const PinTooShortMessage := "PIN must be at least 4 digits long."

  class PinLock {
    var entries: map<string, string>
    const available: bool
    const hash: PinHash

    constructor (initial: map<string, string>, available: bool, hash: PinHash)
      ensures entries == initial && this.available == available && this.hash == hash
    {
      entries := initial;
      this.available := available;
      this.hash := hash;
    }

    /** `set_app_pin(pin)` with the salt `_generate_salt` drew. */
    method SetAppPin(pin: string, salt: Salt) returns (r: SetPinResult)
      modifies this
      ensures |pin| < MinPinLength ==> r == PinTooShort && entries == old(entries)
      ensures |pin| >= MinPinLength && !available ==> r == LockUnavailable && entries == old(entries)
      ensures |pin| >= MinPinLength && available ==> r == PinSet && entries == WritePin(old(entries), hash, pin, salt)
    {
      if |pin| < MinPinLength {
        return PinTooShort;
      }
      if !available {
        return LockUnavailable;
      }
      var hashedPin := hash(pin, salt);
      entries := entries[SaltKey := Hex(salt)];
      entries := entries[PinHashKey := Hex(hashedPin)];
      return PinSet;
    }
  }

  /** A PIN just set is set, and it verifies. */
  lemma SetThenVerify(entries: map<string, string>, hash: PinHash, pin: string, salt: Salt)
    ensures IsPinSet(WritePin(entries, hash, pin, salt), true)
    ensures VerifyPin(WritePin(entries, hash, pin, salt), true, hash, pin)
  {
    FromHexOfHex(salt);
    FromHexOfHex(hash(pin, salt));
  }

  /**
   * After a PIN is set, an attempt verifies exactly when it hashes, with the
   * same salt, to the same digest; so with an injective hash the previous
   * PIN and every other attempt fail.
   */
  lemma VerifyAfterSet(entries: map<string, string>, hash: PinHash, pin: string, salt: Salt, attempt: string)
    ensures VerifyPin(WritePin(entries, hash, pin, salt), true, hash, attempt) <==> hash(attempt, salt) == hash(pin, salt)
  {
    FromHexOfHex(salt);
    FromHexOfHex(hash(pin, salt));
  }

  /** No PIN set, or no keyring: nothing verifies. */
  lemma NotSetRejects(entries: map<string, string>, available: bool, hash: PinHash, attempt: string)
    requires !IsPinSet(entries, available)
    ensures !VerifyPin(entries, available, hash, attempt)
  {
  }

  /**
   * `is_pin_set` tests for presence only: an empty stored salt counts as a
   * set PIN that no attempt can verify.
   */
  lemma EmptySaltLocksOut(entries: map<string, string>, hash: PinHash, attempt: string)
    requires PinHashKey in entries && SaltKey in entries && entries[SaltKey] == ""
    ensures IsPinSet(entries, true) && !VerifyPin(entries, true, hash, attempt)
  {
  }

  /**
   * A stored salt or hash that `bytes.fromhex` rejects makes every attempt
   * fail, whatever the keyring's state.
   */
  lemma CorruptHashRejects(entries: map<string, string>, available: bool, hash: PinHash, attempt: string)
    requires SaltKey in entries && PinHashKey in entries
    requires FromHex(entries[SaltKey]).None? || FromHex(entries[PinHashKey]).None?
    ensures !VerifyPin(entries, available, hash, attempt)
  {
  }
}
