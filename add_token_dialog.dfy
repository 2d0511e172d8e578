/**
 * The add/edit token dialog of ui/add_token_dialog.py: the OK check on the
 * stripped fields (issuer, then account, then secret), the Base32 check on
 * the normalised secret, and the value the dialog hands back.
 */
module AddTokenDialogs {
  import opened Wrappers
  import opened Text

  /** The characters a Base32 secret may hold, upper-case, with padding. */
  const Base32Alphabet := "ABCDEFGHIJKLMNOPQRSTUVWXYZ234567="
  const MinSecretLength := 16

  const EmptyIssuerMessage := "Issuer Name cannot be empty."
  const EmptyAccountMessage := "Account Name cannot be empty."
  const EmptySecretMessage := "Secret Key cannot be empty."
  const InvalidSecretMessage := "Invalid Secret Key (must be valid Base32, typically 16+ chars, e.g. JBSWY3DPEHPK3PXP)."

  /** The dictionary `get_input()` returns. */
  datatype TokenFields = TokenFields(issuerName: string, accountName: string, secretKey: string, recoveryCodes: string)

  datatype TokenVerdict =
    | Accept(fields: TokenFields)
    | Reject(message: string)

  /** `secret.replace(" ", "").upper()` */
  function NormaliseSecret(secret: string): (r: string)
    ensures ' ' !in r
    ensures forall i :: 0 <= i < |r| ==> !IsAsciiLower(r[i])
  {
    var r := Upper(RemoveChar(secret, ' '));
    assert forall i :: 0 <= i < |r| ==> r[i] != ' ' by {
      forall i | 0 <= i < |r| ensures r[i] != ' ' {
        assert RemoveChar(secret, ' ')[i] in RemoveChar(secret, ' ');
      }
    }
    r
  }

  /** The length rule of the Base32 check, as written. */
  predicate LengthAccepted(n: nat) {
    n >= MinSecretLength && (n % 8 == 0 || (n % 4 == 0 && n > MinSecretLength))
  }

  /** Membership in the alphabet, by character ranges. */
  predicate IsBase32Char(c: char) {
    'A' <= c <= 'Z' || '2' <= c <= '7' || c == '='
  }

  /** The ranges are exactly the alphabet. */
  lemma Base32CharInAlphabet(c: char)
    ensures IsBase32Char(c) <==> c in Base32Alphabet
  {
  }

  predicate ValidBase32(s: string) {
    (forall i :: 0 <= i < |s| ==> IsBase32Char(s[i])) && LengthAccepted(|s|)
  }

  /** No Base32 character is whitespace. */
  lemma Base32CharNotSpace(c: char)
    requires IsBase32Char(c)
    ensures !IsStripSpace(c)
  {
  }

  /** The guards of `_ok_event`, in their order, on the raw entry texts. */
  function CheckToken(issuerText: string, accountText: string, secretText: string, recoveryText: string): TokenVerdict {
    CheckFields(Strip(issuerText), Strip(accountText), Strip(secretText), Strip(recoveryText))
  }

  /** The same guards on the already stripped fields. */
  function CheckFields(issuer: string, account: string, secret: string, recovery: string): TokenVerdict {
    if issuer == "" then Reject(EmptyIssuerMessage)
    else if account == "" then Reject(EmptyAccountMessage)
    else if secret == "" then Reject(EmptySecretMessage)
    else
      var tempSecret := NormaliseSecret(secret);
      if !ValidBase32(tempSecret) then Reject(InvalidSecretMessage)
      else Accept(TokenFields(issuer, account, tempSecret, recovery))
  }

  /** The two-way length rule is the same as "at least 16 and a multiple of 4". */
  lemma LengthRule(n: nat)
    ensures LengthAccepted(n) <==> n >= MinSecretLength && n % 4 == 0
  {
    if n % 8 == 0 {
      assert n == 8 * (n / 8);
      assert n == 4 * (2 * (n / 8));
    }
  }

  /**
   * The dialog accepts exactly when the stripped issuer, account and secret
   * are non-empty and the normalised secret is Base32 of an accepted
   * length; it then returns the stripped fields and the normalised secret.
   */
  lemma CheckTokenAccepts(issuerText: string, accountText: string, secretText: string, recoveryText: string)
    ensures CheckToken(issuerText, accountText, secretText, recoveryText).Accept? <==>
      && Strip(issuerText) != "" && Strip(accountText) != "" && Strip(secretText) != ""
      && (forall i :: 0 <= i < |NormaliseSecret(Strip(secretText))| ==> IsBase32Char(NormaliseSecret(Strip(secretText))[i]))
      && |NormaliseSecret(Strip(secretText))| >= MinSecretLength && |NormaliseSecret(Strip(secretText))| % 4 == 0
    ensures CheckToken(issuerText, accountText, secretText, recoveryText).Accept? ==>
      CheckToken(issuerText, accountText, secretText, recoveryText).fields ==
        TokenFields(Strip(issuerText), Strip(accountText), NormaliseSecret(Strip(secretText)), Strip(recoveryText))
  {
    LengthRule(|NormaliseSecret(Strip(secretText))|);
  }

  /** The issuer is checked first, then the account, then the secret. */
  lemma CheckTokenOrder(issuerText: string, accountText: string, secretText: string, recoveryText: string)
    ensures Strip(issuerText) == "" ==> CheckToken(issuerText, accountText, secretText, recoveryText) == Reject(EmptyIssuerMessage)
    ensures Strip(issuerText) != "" && Strip(accountText) == "" ==>
      CheckToken(issuerText, accountText, secretText, recoveryText) == Reject(EmptyAccountMessage)
    ensures Strip(issuerText) != "" && Strip(accountText) != "" && Strip(secretText) == "" ==>
      CheckToken(issuerText, accountText, secretText, recoveryText) == Reject(EmptySecretMessage)
  {
  }

  /** Stripping a stripped string changes nothing. */
  lemma StripIdempotent(s: string)
    ensures Strip(Strip(s)) == Strip(s)
  {
    var r := Strip(s);
    assert TrimStart(r) == r;
    assert TrimEnd(r) == r;
  }

  /** Upper-casing an upper-cased string changes nothing. */
  lemma UpperIdempotent(s: string)
    ensures Upper(Upper(s)) == Upper(s)
  {
  }

  /** Normalising twice is normalising once. */
  lemma NormaliseIdempotent(s: string)
    ensures NormaliseSecret(NormaliseSecret(s)) == NormaliseSecret(s)
  {
    var n := NormaliseSecret(s);
    RemoveCharAbsent(n, ' ');
    UpperIdempotent(RemoveChar(s, ' '));
  }

  /**
   * The dialog accepts its own output: fields it accepted, shown again in
   * edit mode and confirmed unchanged, are accepted as they are.
   */
  lemma AcceptedFieldsAreStable(issuerText: string, accountText: string, secretText: string, recoveryText: string)
    requires CheckToken(issuerText, accountText, secretText, recoveryText).Accept?
    ensures var f := CheckToken(issuerText, accountText, secretText, recoveryText).fields;
      CheckToken(f.issuerName, f.accountName, f.secretKey, f.recoveryCodes) == Accept(f)
  {
    var f := CheckToken(issuerText, accountText, secretText, recoveryText).fields;
    StripIdempotent(issuerText);
    StripIdempotent(accountText);
    StripIdempotent(recoveryText);
    NormaliseIdempotent(Strip(secretText));
    var k := f.secretKey;
    assert forall i :: 0 <= i < |k| ==> !IsStripSpace(k[i]) by {
      forall i | 0 <= i < |k| ensures !IsStripSpace(k[i]) {
        Base32CharNotSpace(k[i]);
      }
    }
    assert TrimStart(k) == k;
    assert TrimEnd(k) == k;
  }

  class AddTokenDialog {
    var issuerEntry: string
    var accountEntry: string
    var secretEntry: string
    var recoveryCodesEntry: string
    var errorText: string
    var userInput: Option<TokenFields>
    var closed: bool
    const isEditMode: bool

    /** `AddTokenDialog(existing_data)`: in edit mode the entries start with the stored values. */
    constructor (existing: Option<TokenFields>)
      ensures isEditMode == existing.Some?
      ensures existing.Some? ==>
        && issuerEntry == existing.value.issuerName && accountEntry == existing.value.accountName
        && secretEntry == existing.value.secretKey && recoveryCodesEntry == existing.value.recoveryCodes
      ensures existing.None? ==> issuerEntry == "" && accountEntry == "" && secretEntry == "" && recoveryCodesEntry == ""
      ensures errorText == "" && userInput.None? && !closed
    {
      isEditMode := existing.Some?;
      if existing.Some? {
        issuerEntry, accountEntry := existing.value.issuerName, existing.value.accountName;
        secretEntry, recoveryCodesEntry := existing.value.secretKey, existing.value.recoveryCodes;
      } else {
        issuerEntry, accountEntry, secretEntry, recoveryCodesEntry := "", "", "", "";
      }
      errorText, userInput, closed := "", None, false;
    }

    /**
     * `_ok_event()`: accepted fields become the result and close the
     * dialog; a rejection shows its message and leaves the result and the
     * dialog as they were.
     */
    method OkEvent()
      modifies this`errorText, this`userInput, this`closed
      ensures var v := CheckToken(issuerEntry, accountEntry, secretEntry, recoveryCodesEntry);
        && (v.Accept? ==> userInput == Some(v.fields) && closed && errorText == old(errorText))
        && (v.Reject? ==> errorText == v.message && userInput == old(userInput) && closed == old(closed))
    {
      var issuer := Strip(issuerEntry);
      var account := Strip(accountEntry);
      var secret := Strip(secretEntry);
      var recoveryCodes := Strip(recoveryCodesEntry);
      if issuer == "" {
        errorText := EmptyIssuerMessage;
        return;
      }
      if account == "" {
        errorText := EmptyAccountMessage;
        return;
      }
      if secret == "" {
        errorText := EmptySecretMessage;
        return;
      }
      var tempSecret := NormaliseSecret(secret);
      var isValidBase32Chars := forall i :: 0 <= i < |tempSecret| ==> IsBase32Char(tempSecret[i]);
      var n := |tempSecret|;
      if !(isValidBase32Chars && n >= MinSecretLength && (n % 8 == 0 || (n % 4 == 0 && n > MinSecretLength))) {
        errorText := InvalidSecretMessage;
        return;
      }
      userInput := Some(TokenFields(issuer, account, tempSecret, recoveryCodes));
      closed := true;
    }

    /** `_cancel_event()`, also run by closing the window: the result is None. */
    method CancelEvent()
      modifies this`userInput, this`closed
      ensures userInput.None? && closed
    {
      userInput := None;
      closed := true;
    }
  }
}
