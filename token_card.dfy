/**
 * The token card of ui/token_card.py: the code label, the clipboard copy and
 * the delayed clearing of the clipboard.  The one-time code itself comes
 * from pyotp and is a parameter here, `None` where `now()` raises (a secret
 * that is not valid Base32); the clipboard is one string.
 */
module TokenCards {
  import opened Wrappers
  import opened Text
  import opened Json

  const UnknownIssuer := "Unknown Issuer"

  /** Seconds after a copy at which the clipboard is cleared. */
  const ClipboardClearSeconds := 30

  /** The issuer shown on a card: the given name, or "Unknown Issuer" when it is None or empty. */
  function DisplayIssuer(issuer: Option<string>): (r: string)
    ensures r != ""
    ensures issuer.Some? && issuer.value != "" ==> r == issuer.value
    ensures issuer.None? || issuer.value == "" ==> r == UnknownIssuer
  {
    match issuer
    case Some(name) => if name != "" then name else UnknownIssuer
    case None => UnknownIssuer
  }

  function Min(a: int, b: int): int {
    if a < b then a else b
  }

  /** The label a card shows before its first code. */
  const CodePlaceholder := "------"

  /** The code label: the first three characters, a space, the rest. */
  function FormatCode(val: string): (r: string)
    ensures |r| == |val| + 1
  {
    val[..Min(3, |val|)] + " " + val[Min(3, |val|)..]
  }

  /**
   * The label holds a space after the first three characters (after all
   * of a shorter code), and dropping that one space gives the code back;
   * for a code without spaces, such as six digits, dropping every
   * space does too.
   */
  lemma FormatCodeRoundTrip(val: string)
    ensures var k := Min(3, |val|);
      FormatCode(val)[k] == ' ' && FormatCode(val)[..k] + FormatCode(val)[k + 1..] == val
    ensures ' ' !in val ==> RemoveChar(FormatCode(val), ' ') == val
  {
    var k := Min(3, |val|);
    var r := FormatCode(val);
    assert r[..k] == val[..k];
    assert r[k + 1..] == val[k..];
    assert val[..k] + val[k..] == val;
    if ' ' !in val {
      assert ' ' !in val[..k] && ' ' !in val[k..] by {
        assert forall c :: c in val[..k] || c in val[k..] ==> c in val;
      }
      RemoveCharConcat(val[..k] + " ", val[k..], ' ');
      RemoveCharConcat(val[..k], " ", ' ');
      RemoveCharAbsent(val[..k], ' ');
      RemoveCharAbsent(val[k..], ' ');
      assert RemoveChar(" ", ' ') == [];
    }
  }

  /**
   * The value and label a new card holds after its first `update_token`:
   * the code and its label, or, when pyotp raises, no value and the
   * placeholder.
   */
  function FirstValue(code: Option<string>): string {
    if code.Some? then code.value else ""
  }

  function FirstLabel(code: Option<string>): string {
    if code.Some? then FormatCode(code.value) else CodePlaceholder
  }

  /**
   * A card whose first code failed holds no value and shows the
   * placeholder, which no code's label equals (a label has a space);
   * a card whose first code succeeded holds it and shows its label.
   */
  lemma FirstCodeShown(code: Option<string>)
    ensures code.None? ==> FirstValue(code) == "" && FirstLabel(code) == CodePlaceholder
    ensures code.Some? ==> FirstValue(code) == code.value && FirstLabel(code) == FormatCode(code.value)
    ensures forall v :: FormatCode(v) != CodePlaceholder
  {
    forall v ensures FormatCode(v) != CodePlaceholder {
      FormatCodeRoundTrip(v);
      var k := Min(3, |v|);
      assert FormatCode(v)[k] == ' ' && CodePlaceholder[k] == '-';
    }
  }

  /** The card holds the value and label its first `update_token` left for `code`. */
  predicate ShowsFirstCode(card: TokenCard, code: Option<string>)
    reads card
  {
    card.currentTokenVal == FirstValue(code) && card.codeLabel == FirstLabel(code)
  }

  /** What `clear_clipboard_if_matches(expected)` leaves on a clipboard holding `current`. */
  function ClearedClipboard(current: string, expected: string): string {
    if current == expected then "" else current
  }

  /**
   * The clear step empties the clipboard exactly when it still holds the
   * copied code, never touches anything else the user copied since, and
   * running it again changes nothing.
   */
  lemma ClearOnlyIfMatches(current: string, expected: string)
    ensures ClearedClipboard(current, expected) == "" <==> current == expected || current == ""
    ensures current != expected ==> ClearedClipboard(current, expected) == current
    ensures ClearedClipboard(ClearedClipboard(current, expected), expected) == ClearedClipboard(current, expected)
  {
  }

  /** The system clipboard as pyperclip reads and writes it. */
  class Clipboard {
    var contents: string

    constructor (contents: string)
      ensures this.contents == contents
    {
      this.contents := contents;
    }
  }

  /** `clear_clipboard_if_matches(expected_value)` */
  method ClearClipboardIfMatches(clipboard: Clipboard, expected: string)
    modifies clipboard
    ensures clipboard.contents == ClearedClipboard(old(clipboard.contents), expected)
  {
    var current := clipboard.contents;
    if current == expected {
      clipboard.contents := "";
    }
  }

  /** A `threading.Timer` that runs `clear_clipboard_if_matches(expected)` once. */
  class ClearTimer {
    const expected: string
    var alive: bool

    constructor (expected: string)
      ensures this.expected == expected && alive
    {
      this.expected := expected;
      alive := true;
    }

    method Cancel()
      modifies this
      ensures !alive
    {
      alive := false;
    }

    /** The timer expiring: it runs the clear step and is no longer alive. */
    method Fire(clipboard: Clipboard)
      requires alive
      modifies this, clipboard
      ensures !alive
      ensures clipboard.contents == ClearedClipboard(old(clipboard.contents), expected)
    {
      alive := false;
      ClearClipboardIfMatches(clipboard, expected);
    }
  }

  class TokenCard {
    const tokenIdentifier: string
    var accountName: string
    var secretKey: Json
    var issuerName: string
    const recoveryCodes: Json
    var currentTokenVal: string
    var codeLabel: string
    var clipboardClearTimer: ClearTimer?

    /**
     * `TokenCard(...)`: the value starts empty and the label shows the
     * placeholder; then the first `update_token` runs with `code`.
     */
    constructor (identifier: string, account: string, secret: Json, issuer: Option<string>, recovery: Json, code: Option<string>)
      ensures tokenIdentifier == identifier && accountName == account && secretKey == secret
      ensures issuerName == DisplayIssuer(issuer) && recoveryCodes == recovery
      ensures ShowsFirstCode(this, code)
      ensures clipboardClearTimer == null
    {
      tokenIdentifier := identifier;
      accountName := account;
      secretKey := secret;
      issuerName := DisplayIssuer(issuer);
      recoveryCodes := recovery;
      currentTokenVal := "";
      codeLabel := CodePlaceholder;
      clipboardClearTimer := null;
      new;
      UpdateToken(code);
    }

    /**
     * `update_token()` with pyotp's answer: a code replaces the value and
     * the label; an exception is caught and leaves both as they were.
     */
    method UpdateToken(code: Option<string>)
      modifies this
      ensures code.Some? ==> currentTokenVal == code.value && codeLabel == FormatCode(code.value)
      ensures code.None? ==> currentTokenVal == old(currentTokenVal) && codeLabel == old(codeLabel)
      ensures accountName == old(accountName) && secretKey == old(secretKey) && issuerName == old(issuerName)
      ensures clipboardClearTimer == old(clipboardClearTimer)
    {
      if code.Some? {
        currentTokenVal := code.value;
        codeLabel := FormatCode(currentTokenVal);
      }
    }

    /**
     * `copy_to_clipboard()`: nothing without a code; otherwise the code is
     * copied, a live clear timer is cancelled and a new one carries the code.
     */
    method CopyToClipboard(clipboard: Clipboard)
      modifies this, clipboard, clipboardClearTimer
      ensures old(currentTokenVal) == "" ==>
        clipboard.contents == old(clipboard.contents) && clipboardClearTimer == old(clipboardClearTimer)
        && (old(clipboardClearTimer) != null ==> old(clipboardClearTimer).alive == old(clipboardClearTimer.alive))
      ensures old(currentTokenVal) != "" ==>
        && clipboard.contents == currentTokenVal
        && clipboardClearTimer != null && fresh(clipboardClearTimer)
        && clipboardClearTimer.alive && clipboardClearTimer.expected == currentTokenVal
        && (old(clipboardClearTimer) != null ==> !old(clipboardClearTimer).alive)
      ensures currentTokenVal == old(currentTokenVal) && codeLabel == old(codeLabel)
      ensures accountName == old(accountName) && secretKey == old(secretKey) && issuerName == old(issuerName)
    {
      if currentTokenVal != "" {
        clipboard.contents := currentTokenVal;
        if clipboardClearTimer != null && clipboardClearTimer.alive {
          clipboardClearTimer.Cancel();
        }
        clipboardClearTimer := new ClearTimer(currentTokenVal);
      }
    }

    /**
     * `update_display(...)`: new issuer, account and secret, taken as given,
     * and the code for the new secret.  This `now()` is outside any `try`:
     * when it raises, the exception escapes after the fields were replaced,
     * and the value and label stay as they were.
     */
    method UpdateDisplay(newIssuer: string, newAccount: string, newSecret: string, code: Option<string>) returns (raised: bool)
      modifies this
      ensures issuerName == newIssuer && accountName == newAccount && secretKey == JStr(newSecret)
      ensures raised <==> code.None?
      ensures code.Some? ==> currentTokenVal == code.value && codeLabel == FormatCode(code.value)
      ensures code.None? ==> currentTokenVal == old(currentTokenVal) && codeLabel == old(codeLabel)
      ensures clipboardClearTimer == old(clipboardClearTimer)
    {
      issuerName := newIssuer;
      accountName := newAccount;
      secretKey := JStr(newSecret);
      raised := code.None?;
      if code.Some? {
        currentTokenVal := code.value;
        codeLabel := FormatCode(currentTokenVal);
      }
    }
  }
}
