/**
 * The session of main.py (`TwoFactorApp`): the PIN gate with at most three
 * attempts, the inactivity timer that re-locks the application, the home
 * view with its search filter, and the clean-up on closing.  Tk's `after`
 * queue is the `AfterQueue` object; dialogs become their results, passed in.
 */
module Session {
  import opened Wrappers
  import opened Text
  import opened Json
  import opened SecureStorage
  import AppLock
  import opened TokenCards

  const MaxPinAttempts := 3

  /** The prompt shown before attempt `attempts` (counted from 0). */
  function PromptMessage(isStartup: bool, attempts: nat): string
    requires attempts < MaxPinAttempts
  {
    var base := if isStartup then "Enter PIN to unlock" else "Enter PIN to unlock application";
    var counted := base + " (" + NatToString(MaxPinAttempts - attempts) + " attempts left):";
    if attempts > 0 then "Invalid PIN. " + counted else counted
  }

  /**
   * Every prompt ends with the attempts left, `3 - attempts`, and only the
   * prompts after a failure start with "Invalid PIN. ".
   */
  lemma PromptShowsAttemptsLeft(isStartup: bool, attempts: nat)
    requires attempts < MaxPinAttempts
    ensures var m := PromptMessage(isStartup, attempts);
      var tail := " (" + NatToString(MaxPinAttempts - attempts) + " attempts left):";
      && |tail| <= |m| && m[|m| - |tail|..] == tail
      && (attempts > 0 <==> |m| >= 13 && m[..13] == "Invalid PIN. ")
  {
    var base := if isStartup then "Enter PIN to unlock" else "Enter PIN to unlock application";
    var tail := " (" + NatToString(MaxPinAttempts - attempts) + " attempts left):";
    var m := PromptMessage(isStartup, attempts);
    if attempts > 0 {
      assert m == "Invalid PIN. " + (base + tail);
      assert m[..13] == "Invalid PIN. ";
      assert m[|m| - |tail|..] == tail;
    } else {
      assert m == base + tail;
      assert m[0] == 'E';
      assert m[|m| - |tail|..] == tail;
    }
  }

  // ---------------------------------------------------------------------
  // The home view and its search filter

  /** What one card shows, from the record `get_token_secret` returned. */
  datatype Shown = Shown(identifier: string, account: string, secret: Json, issuer: string, recovery: Json)

  /** What one index entry does to the home view. */
  datatype Step = Skip | Show(card: Shown) | Raise

  /** The filter: the (already lower-cased) term occurs in the lower-cased issuer or account. */
  predicate Matches(term: string, issuer: string, account: string) {
    IsSubstring(term, Lower(issuer)) || IsSubstring(term, Lower(account))
  }

  /**
   * One pass of the loop in `load_and_display_tokens`.  A record whose
   * issuer or account is not a string makes `.lower()` raise.
   */
  function LoadStep(store: Store, available: bool, term: string, item: Json): Step {
    match item
    case JStr(id) =>
      (match ReadToken(store, available, id)
       case None => Skip
       case Some(info) =>
         if !info.issuerName.JStr? || !info.accountName.JStr? then Raise
         else if Matches(term, info.issuerName.s, info.accountName.s) then
           Show(Shown(id, info.accountName.s, info.secretKey, info.issuerName.s, info.recoveryCodes))
         else Skip)
    case _ => Skip
  }

  datatype Loading = Loading(shown: seq<Shown>, raised: bool)

  /** The cards built from the index entries, in order, up to the first entry that raises. */
  function LoadAll(store: Store, available: bool, term: string, items: seq<Json>): Loading {
    if items == [] then Loading([], false)
    else
      var prev := LoadAll(store, available, term, items[..|items| - 1]);
      if prev.raised then prev
      else match LoadStep(store, available, term, items[|items| - 1])
        case Skip => prev
        case Show(c) => Loading(prev.shown + [c], false)
        case Raise => Loading(prev.shown, true)
  }

  /** The state of the home view after `load_and_display_tokens`. */
  datatype HomeView =
    | NotLoaded
    | NoTokens                 // empty index: only the "No 2FA tokens found" label
    | TokenList                // at least one card
    | NoMatch(search: string)  // "No tokens found matching '...'"
    | NothingToDisplay         // entries, but none loaded
    | LoadError                // "Error loading tokens."

  /** The cards `load_and_display_tokens` shows for a search text. */
  function ShownOf(store: Store, available: bool, searchText: string): seq<Shown> {
    var index := ReadIndex(store, available);
    if !Truthy(index) then []
    else match Iterated(index)
      case None => []
      case Some(items) => LoadAll(store, available, Lower(searchText), items).shown
  }

  /** The label or list `load_and_display_tokens` leaves on screen. */
  function ViewOf(store: Store, available: bool, searchText: string): HomeView {
    var index := ReadIndex(store, available);
    if !Truthy(index) then NoTokens
    else match Iterated(index)
      case None => LoadError
      case Some(items) =>
        var loaded := LoadAll(store, available, Lower(searchText), items);
        if loaded.raised then LoadError
        else if |loaded.shown| == 0 then (if searchText != "" then NoMatch(searchText) else NothingToDisplay)
        else TokenList
  }

  function ShownIds(shown: seq<Shown>): set<string> {
    set c | c in shown :: c.identifier
  }

  /** One more entry, while nothing has raised. */
  lemma LoadAllNext(store: Store, available: bool, term: string, items: seq<Json>, i: nat)
    requires i < |items| && !LoadAll(store, available, term, items[..i]).raised
    ensures LoadAll(store, available, term, items[..i + 1]) ==
      var prev := LoadAll(store, available, term, items[..i]);
      match LoadStep(store, available, term, items[i])
      case Skip => prev
      case Show(c) => Loading(prev.shown + [c], false)
      case Raise => Loading(prev.shown, true)
  {
    assert items[..i + 1][..i] == items[..i];
  }

  /**
   * A shown step appends its entry, and no entry loaded before has the same
   * identifier with other contents.
   */
  lemma LoadAllShowNext(store: Store, available: bool, term: string, items: seq<Json>, i: nat)
    requires i < |items| && !LoadAll(store, available, term, items[..i]).raised
    requires LoadStep(store, available, term, items[i]).Show?
    ensures var prev := LoadAll(store, available, term, items[..i]);
      var c := LoadStep(store, available, term, items[i]).card;
      && LoadAll(store, available, term, items[..i + 1]) == Loading(prev.shown + [c], false)
      && forall d :: d in prev.shown && d.identifier == c.identifier ==> d == c
  {
    LoadAllNext(store, available, term, items, i);
    LoadAllSound(store, available, term, items[..i]);
  }

  /** Once an entry has raised, the later entries are never looked at. */
  lemma {:induction false} LoadAllStopsAtRaise(store: Store, available: bool, term: string, items: seq<Json>, i: nat)
    requires i <= |items|
    requires LoadAll(store, available, term, items[..i]).raised
    ensures LoadAll(store, available, term, items) == LoadAll(store, available, term, items[..i])
    decreases |items| - i
  {
    if i < |items| {
      assert items[..i + 1][..i] == items[..i];
      LoadAllStopsAtRaise(store, available, term, items, i + 1);
    } else {
      assert items[..i] == items;
    }
  }

  /**
   * Every card comes from an index entry naming it, and that entry's step
   * shows it; so two cards with one identifier are the same card.
   */
  lemma {:induction false} LoadAllSound(store: Store, available: bool, term: string, items: seq<Json>)
    ensures forall c :: c in LoadAll(store, available, term, items).shown ==>
      JStr(c.identifier) in items && LoadStep(store, available, term, JStr(c.identifier)) == Show(c)
  {
    if items != [] {
      var init := items[..|items| - 1];
      LoadAllSound(store, available, term, init);
      forall c | c in LoadAll(store, available, term, items).shown
        ensures JStr(c.identifier) in items && LoadStep(store, available, term, JStr(c.identifier)) == Show(c)
      {
        if c in LoadAll(store, available, term, init).shown {
          assert JStr(c.identifier) in init;
        }
      }
    }
  }

  /**
   * The filter, both ways: when loading does not raise, an entry whose
   * record loads is shown exactly when the term occurs in its lower-cased
   * issuer or account.
   */
  lemma {:induction false} LoadAllShowsMatches(store: Store, available: bool, term: string, items: seq<Json>, id: string)
    requires !LoadAll(store, available, term, items).raised
    requires JStr(id) in items && ReadToken(store, available, id).Some?
    ensures var info := ReadToken(store, available, id).value;
      info.issuerName.JStr? && info.accountName.JStr?
      && ((exists c :: c in LoadAll(store, available, term, items).shown && c.identifier == id)
          <==> Matches(term, info.issuerName.s, info.accountName.s))
  {
    var init := items[..|items| - 1];
    var info := ReadToken(store, available, id).value;
    LoadAllSound(store, available, term, items);
    assert !LoadAll(store, available, term, init).raised;
    if JStr(id) in init {
      LoadAllShowsMatches(store, available, term, init, id);
    } else {
      assert items[|items| - 1] == JStr(id);
    }
    if Matches(term, info.issuerName.s, info.accountName.s) {
      var c := Shown(id, info.accountName.s, info.secretKey, info.issuerName.s, info.recoveryCodes);
      if JStr(id) in init {
        var d :| d in LoadAll(store, available, term, init).shown && d.identifier == id;
        assert d in LoadAll(store, available, term, items).shown;
      } else {
        assert c in LoadAll(store, available, term, items).shown;
      }
    }
  }

  /** The empty search term matches every issuer and account. */
  lemma EmptySearchMatchesAll(issuer: string, account: string)
    ensures Matches(Lower(""), issuer, account)
  {
    assert Lower("") == "";
    EmptyIsSubstring(Lower(issuer));
  }

  /** The filter agrees with "the term starts at some position of the lower-cased issuer or account". */
  lemma MatchesByPosition(term: string, issuer: string, account: string)
    ensures Matches(term, issuer, account) <==>
      exists i :: OccursAt(term, Lower(issuer), i) || OccursAt(term, Lower(account), i)
  {
    var li, la := Lower(issuer), Lower(account);
    IsSubstringAt(term, li);
    IsSubstringAt(term, la);
    if Matches(term, issuer, account) {
      var i :| OccursAt(term, li, i) || OccursAt(term, la, i);
      assert OccursAt(term, Lower(issuer), i) || OccursAt(term, Lower(account), i);
    }
  }

  /** A card shows the entry `c` with what pyotp gave for its secret. */
  predicate CardShows(card: TokenCard, c: Shown, otp: Json -> Option<string>)
    reads card
  {
    && card.tokenIdentifier == c.identifier
    && card.accountName == c.account
    && card.secretKey == c.secret
    && card.issuerName == DisplayIssuer(Some(c.issuer))
    && card.recoveryCodes == c.recovery
    && ShowsFirstCode(card, otp(c.secret))
    && card.clipboardClearTimer == null
  }

  /** The card map shows exactly `shown`: one card per identifier, showing its entry. */
  predicate CardsShow(cards: map<string, TokenCard>, shown: seq<Shown>, otp: Json -> Option<string>)
    reads cards.Values
  {
    && cards.Keys == ShownIds(shown)
    && forall c :: c in shown ==> c.identifier in cards && CardShows(cards[c.identifier], c, otp)
  }

  /** Storing the card for one more entry; an earlier card with that identifier showed the same entry. */
  lemma CardsShowExtend(cards: map<string, TokenCard>, shown: seq<Shown>, otp: Json -> Option<string>, c: Shown, card: TokenCard)
    requires CardsShow(cards, shown, otp) && CardShows(card, c, otp)
    requires forall d :: d in shown && d.identifier == c.identifier ==> d == c
    ensures CardsShow(cards[c.identifier := card], shown + [c], otp)
  {
    assert ShownIds(shown + [c]) == ShownIds(shown) + {c.identifier};
  }

  // ---------------------------------------------------------------------
  // Tk's `after` queue

  /** Callbacks scheduled with `after`: identifier to delay in milliseconds. */
  class AfterQueue {
    var pending: map<nat, nat>
    var next: nat

    constructor ()
      ensures pending == map[] && next == 0
    {
      pending := map[];
      next := 0;
    }

    method After(delayMs: nat) returns (id: nat)
      modifies this
      ensures id == old(next) && next == old(next) + 1
      ensures pending == old(pending)[id := delayMs]
    {
      id := next;
      next := next + 1;
      pending := pending[id := delayMs];
    }

    method AfterCancel(id: nat)
      modifies this
      ensures pending == old(pending) - {id} && next == old(next)
    {
      pending := pending - {id};
    }
  }

  datatype Frame = NoFrame | HomeFrame | SettingsFrame

  function WithoutTimer(pending: map<nat, nat>, id: Option<nat>): map<nat, nat> {
    if id.Some? then pending - {id.value} else pending
  }

  class TwoFactorApp {
    var appUnlocked: bool
    var pinAttempts: nat
    var inactivityTimerId: Option<nat>
    var autoLockAfterSeconds: int
    var windowVisible: bool
    var exited: bool
    var currentFrame: Frame
    var homeView: HomeView
    var searchText: string
    var tokenCards: map<string, TokenCard>
    const vault: Vault
    const lock: AppLock.PinLock
    const timers: AfterQueue
    /** `pyotp.TOTP(secret).now()`: `None` where it raises. */
    const otp: Json -> Option<string>

    /** The state `__init__` establishes before the PIN check. */
    constructor (vault: Vault, lock: AppLock.PinLock, otp: Json -> Option<string>)
      ensures this.vault == vault && this.lock == lock && this.otp == otp && fresh(timers)
      ensures !appUnlocked && pinAttempts == 0 && inactivityTimerId.None? && !exited && !windowVisible
      ensures autoLockAfterSeconds == ReadAutoLock(vault.store, vault.available)
      ensures tokenCards == map[] && currentFrame == NoFrame && homeView == NotLoaded && searchText == ""
      ensures timers.pending == map[]
    {
      this.vault := vault;
      this.lock := lock;
      this.otp := otp;
      timers := new AfterQueue();
      appUnlocked := false;
      pinAttempts := 0;
      inactivityTimerId := None;
      autoLockAfterSeconds := ReadAutoLock(vault.store, vault.available);
      windowVisible := false;
      exited := false;
      currentFrame := NoFrame;
      homeView := NotLoaded;
      searchText := "";
      tokenCards := map[];
    }

    /**
     * The only auto-lock callback that can be pending is the recorded one,
     * and identifiers not yet handed out are above it.
     */
    predicate TimerInvariant()
      reads this, timers
    {
      && timers.pending.Keys <= (if inactivityTimerId.Some? then {inactivityTimerId.value} else {})
      && (inactivityTimerId.Some? ==> inactivityTimerId.value < timers.next)
    }

    /** An answer of the PIN dialog that unlocks: a non-empty PIN that `verify_app_pin` accepts. */
    predicate Accepted(answer: Option<string>)
      reads lock
    {
      answer.Some? && answer.value != "" && AppLock.VerifyPin(lock.entries, lock.available, lock.hash, answer.value)
    }

    /** `quit_application_if_pin_cancelled()`: the process ends. */
    method QuitApplication()
      modifies this`exited
      ensures exited
    {
      exited := true;
    }

    /**
     * `_prompt_for_pin_and_unlock(is_startup_check)`, where `answers[j]` is
     * what the j-th PIN dialog returns (None for cancel or close).
     */
    method PromptForPinAndUnlock(isStartup: bool, answers: seq<Option<string>>) returns (unlocked: bool, prompts: seq<string>)
      requires |answers| >= MaxPinAttempts
      modifies this`appUnlocked, this`pinAttempts, this`exited
      ensures 1 <= |prompts| <= MaxPinAttempts
      ensures forall j :: 0 <= j < |prompts| ==> prompts[j] == PromptMessage(isStartup, j)
      ensures forall j :: 0 <= j < |prompts| - 1 ==> answers[j].Some? && !Accepted(answers[j])
      ensures unlocked <==> Accepted(answers[|prompts| - 1])
      ensures unlocked ==> appUnlocked && exited == old(exited) && pinAttempts == |prompts| - 1
      ensures !unlocked ==> exited && appUnlocked == old(appUnlocked)
      ensures !unlocked ==>
        (answers[|prompts| - 1].None? && pinAttempts == |prompts| - 1)
        || (answers[|prompts| - 1].Some? && |prompts| == MaxPinAttempts && pinAttempts == MaxPinAttempts)
    {
      pinAttempts := 0;
      prompts := [];
      while pinAttempts < MaxPinAttempts
        invariant 0 <= pinAttempts <= MaxPinAttempts && |prompts| == pinAttempts
        invariant forall j :: 0 <= j < |prompts| ==> prompts[j] == PromptMessage(isStartup, j)
        invariant forall j :: 0 <= j < pinAttempts ==> answers[j].Some? && !Accepted(answers[j])
        invariant appUnlocked == old(appUnlocked) && exited == old(exited)
      {
        var promptMessage := PromptMessage(isStartup, pinAttempts);
        prompts := prompts + [promptMessage];
        var pin := answers[pinAttempts];
        if pin.Some? && pin.value != "" && AppLock.VerifyPin(lock.entries, lock.available, lock.hash, pin.value) {
          appUnlocked := true;
          return true, prompts;
        } else if pin.None? && !isStartup {
          QuitApplication();
          return false, prompts;
        } else if pin.None? && isStartup {
          QuitApplication();
          return false, prompts;
        }
        pinAttempts := pinAttempts + 1;
      }
      QuitApplication();
      return false, prompts;
    }

    /**
     * `reset_inactivity_timer()`: the previous callback is cancelled, and a
     * new one is scheduled exactly when the application is unlocked and
     * auto-lock is not disabled (0 seconds).
     */
    method ResetInactivityTimer()
      requires TimerInvariant()
      modifies this`inactivityTimerId, timers
      ensures TimerInvariant()
      ensures inactivityTimerId.Some? <==> appUnlocked && autoLockAfterSeconds > 0
      ensures inactivityTimerId.Some? ==> inactivityTimerId.value == old(timers.next)
      ensures timers.pending ==
        if inactivityTimerId.Some? then map[inactivityTimerId.value := autoLockAfterSeconds * 1000] else map[]
    {
      CancelInactivityTimer();
      if appUnlocked && autoLockAfterSeconds > 0 {
        var id := timers.After(autoLockAfterSeconds * 1000);
        inactivityTimerId := Some(id);
      }
    }

    /**
     * One pass of the loop of `load_and_display_tokens`: whether the entry
     * raises, and the new card when it is shown.
     */
    method LoadEntry(searchTerm: string, item: Json) returns (raised: bool, card: TokenCard?)
      ensures var step := LoadStep(vault.store, vault.available, searchTerm, item);
        && (raised <==> step == Raise)
        && (card != null <==> step.Show?)
        && (step.Show? ==>
              card != null && fresh(card) && card.tokenIdentifier == step.card.identifier && CardShows(card, step.card, otp))
    {
      raised, card := false, null;
      var tokenData := match item case JStr(id) => ReadToken(vault.store, vault.available, id) case _ => None;
      if tokenData.Some? {
        var info := tokenData.value;
        if !info.issuerName.JStr? || !info.accountName.JStr? {
          raised := true;
        } else {
          var issuerName := Lower(info.issuerName.s);
          var accountName := Lower(info.accountName.s);
          if IsSubstring(searchTerm, issuerName) || IsSubstring(searchTerm, accountName) {
            card := new TokenCard(item.s, info.accountName.s, info.secretKey,
              Some(info.issuerName.s), info.recoveryCodes, otp(info.secretKey));
          }
        }
      }
    }

    /**
     * The `for` loop of `load_and_display_tokens` over the index entries:
     * the cards it builds, how many it counts, and whether an entry raised.
     */
    method BuildCards(searchTerm: string, items: seq<Json>) returns (cards: map<string, TokenCard>, displayedTokensCount: nat, raised: bool)
      ensures var loaded := LoadAll(vault.store, vault.available, searchTerm, items);
        && raised == loaded.raised
        && displayedTokensCount == |loaded.shown|
        && CardsShow(cards, loaded.shown, otp)
      ensures forall id :: id in cards ==> fresh(cards[id])
    {
      var store, available := vault.store, vault.available;
      cards, displayedTokensCount, raised := map[], 0, false;
      ghost var shown: seq<Shown> := [];
      var i := 0;
      while i < |items| && !raised
        invariant 0 <= i <= |items|
        invariant LoadAll(store, available, searchTerm, items[..i]) == Loading(shown, raised)
        invariant displayedTokensCount == |shown|
        invariant CardsShow(cards, shown, otp)
        invariant forall id :: id in cards ==> fresh(cards[id])
      {
        ghost var step := LoadStep(store, available, searchTerm, items[i]);
        ghost var next := LoadAll(store, available, searchTerm, items[..i + 1]);
        LoadAllNext(store, available, searchTerm, items, i);
        var card;
        raised, card := LoadEntry(searchTerm, items[i]);
        if card != null {
          ghost var c := step.card;
          LoadAllShowNext(store, available, searchTerm, items, i);
          CardsShowExtend(cards, shown, otp, c, card);
          cards := cards[card.tokenIdentifier := card];
          shown := shown + [c];
          displayedTokensCount := displayedTokensCount + 1;
        } else {
          assert next == Loading(shown, raised);
        }
        i := i + 1;
      }
      if raised {
        LoadAllStopsAtRaise(store, available, searchTerm, items, i);
      } else {
        assert items[..i] == items;
      }
    }

    /**
     * `load_and_display_tokens()`: the old cards are dropped and a card is
     * built for every entry that loads and matches the search, until an
     * entry raises.
     */
    method LoadAndDisplayTokens()
      modifies this`tokenCards, this`homeView
      ensures homeView == ViewOf(vault.store, vault.available, searchText)
      ensures CardsShow(tokenCards, ShownOf(vault.store, vault.available, searchText), otp)
      ensures forall id :: id in tokenCards ==> fresh(tokenCards[id])
    {
      tokenCards := map[];
      var searchTerm := Lower(searchText);
      var tokenIdentifiers := ReadIndex(vault.store, vault.available);
      if !Truthy(tokenIdentifiers) {
        homeView := NoTokens;
        return;
      }
      var iterated := Iterated(tokenIdentifiers);
      if iterated.None? {
        homeView := LoadError;
        return;
      }
      var displayedTokensCount, raised;
      tokenCards, displayedTokensCount, raised := BuildCards(searchTerm, iterated.value);
      if raised {
        homeView := LoadError;
      } else if displayedTokensCount == 0 {
        if searchTerm != "" {
          homeView := NoMatch(searchText);
        } else {
          homeView := NothingToDisplay;
        }
      } else {
        homeView := TokenList;
      }
    }

    /** `show_home_frame()`: the home frame is shown and the cards are reloaded. */
    method ShowHomeFrame()
      modifies this`currentFrame, this`tokenCards, this`homeView
      ensures currentFrame == HomeFrame
      ensures homeView == ViewOf(vault.store, vault.available, searchText)
      ensures CardsShow(tokenCards, ShownOf(vault.store, vault.available, searchText), otp)
      ensures forall id :: id in tokenCards ==> fresh(tokenCards[id])
    {
      currentFrame := HomeFrame;
      LoadAndDisplayTokens();
    }

    /**
     * `show_app_window()`: the auto-lock setting is read again, the window
     * shown with the home frame, and the inactivity timer started.
     */
    method ShowAppWindow()
      requires TimerInvariant()
      modifies this`autoLockAfterSeconds, this`windowVisible, this`currentFrame, this`tokenCards, this`homeView
      modifies this`inactivityTimerId, timers
      ensures TimerInvariant()
      ensures autoLockAfterSeconds == ReadAutoLock(vault.store, vault.available)
      ensures windowVisible && currentFrame == HomeFrame
      ensures homeView == ViewOf(vault.store, vault.available, searchText)
      ensures CardsShow(tokenCards, ShownOf(vault.store, vault.available, searchText), otp)
      ensures inactivityTimerId.Some? <==> appUnlocked && autoLockAfterSeconds > 0
      ensures timers.pending ==
        if inactivityTimerId.Some? then map[inactivityTimerId.value := autoLockAfterSeconds * 1000] else map[]
    {
      autoLockAfterSeconds := ReadAutoLock(vault.store, vault.available);
      windowVisible := true;
      ShowHomeFrame();
      ResetInactivityTimer();
    }

    /**
     * `lock_application()`: the pending auto-lock callback is cancelled and
     * the application locked and hidden before the PIN is asked for (not at
     * startup); only a successful unlock shows the window again, reloads the
     * home frame and starts a new timer.  A failed unlock ends the process.
     */
    method LockApplication(answers: seq<Option<string>>) returns (unlocked: bool, prompts: seq<string>)
      requires |answers| >= MaxPinAttempts
      requires TimerInvariant()
      modifies this`inactivityTimerId, timers, this`appUnlocked, this`pinAttempts, this`exited
      modifies this`windowVisible, this`currentFrame, this`tokenCards, this`homeView
      ensures TimerInvariant()
      ensures 1 <= |prompts| <= MaxPinAttempts
      ensures forall j :: 0 <= j < |prompts| ==> prompts[j] == PromptMessage(false, j)
      ensures forall j :: 0 <= j < |prompts| - 1 ==> answers[j].Some? && !Accepted(answers[j])
      ensures unlocked <==> Accepted(answers[|prompts| - 1])
      ensures unlocked <==> appUnlocked
      ensures !unlocked ==> exited && !windowVisible && inactivityTimerId.None?
      ensures !unlocked ==> timers.pending == map[]
      ensures !unlocked ==> currentFrame == old(currentFrame) && homeView == old(homeView)
      ensures unlocked ==> windowVisible && currentFrame == HomeFrame
      ensures unlocked ==> homeView == ViewOf(vault.store, vault.available, searchText)
      ensures unlocked ==> CardsShow(tokenCards, ShownOf(vault.store, vault.available, searchText), otp)
      ensures !unlocked ==> tokenCards == old(tokenCards)
      ensures unlocked ==> (inactivityTimerId.Some? <==> autoLockAfterSeconds > 0)
      ensures unlocked ==>
        timers.pending == if inactivityTimerId.Some? then map[inactivityTimerId.value := autoLockAfterSeconds * 1000] else map[]
    {
      CancelInactivityTimer();
      appUnlocked := false;
      windowVisible := false;
      unlocked, prompts := PromptForPinAndUnlock(false, answers);
      if unlocked {
        windowVisible := true;
        ShowHomeFrame();
        ResetInactivityTimer();
      }
    }

    /**
     * `update_auto_lock_and_reset_timer()`: the stored setting is read again
     * and the timer rescheduled with it.
     */
    method UpdateAutoLockAndResetTimer()
      requires TimerInvariant()
      modifies this`autoLockAfterSeconds, this`inactivityTimerId, timers
      ensures TimerInvariant()
      ensures autoLockAfterSeconds == ReadAutoLock(vault.store, vault.available)
      ensures inactivityTimerId.Some? <==> appUnlocked && autoLockAfterSeconds > 0
      ensures timers.pending ==
        if inactivityTimerId.Some? then map[inactivityTimerId.value := autoLockAfterSeconds * 1000] else map[]
    {
      var newTimeout := ReadAutoLock(vault.store, vault.available);
      autoLockAfterSeconds := newTimeout;
      ResetInactivityTimer();
    }

    /**
     * `_show_frame_callback(name)`: nothing happens while the application is
     * locked; "Home" shows and reloads the home frame, "Settings" shows the
     * settings frame, any other name does nothing.
     */
    method ShowFrameCallback(frameClassName: string)
      modifies this`currentFrame, this`tokenCards, this`homeView
      ensures !appUnlocked || (frameClassName != "Home" && frameClassName != "Settings") ==>
        currentFrame == old(currentFrame) && tokenCards == old(tokenCards) && homeView == old(homeView)
      ensures appUnlocked && frameClassName == "Home" ==>
        currentFrame == HomeFrame && homeView == ViewOf(vault.store, vault.available, searchText)
        && CardsShow(tokenCards, ShownOf(vault.store, vault.available, searchText), otp)
      ensures appUnlocked && frameClassName == "Settings" ==>
        currentFrame == SettingsFrame && tokenCards == old(tokenCards) && homeView == old(homeView)
    {
      if appUnlocked {
        if frameClassName == "Home" {
          ShowHomeFrame();
        } else if frameClassName == "Settings" {
          currentFrame := SettingsFrame;
        }
      }
    }

    /** The clipboard timers of the cards on screen. */
    function CardTimers(): set<ClearTimer>
      reads this, tokenCards.Values
    {
      set id | id in tokenCards && tokenCards[id].clipboardClearTimer != null :: tokenCards[id].clipboardClearTimer
    }

    /**
     * The first step of `_on_closing` and `lock_application`: a pending
     * auto-lock callback is cancelled and forgotten.
     */
    method CancelInactivityTimer()
      requires TimerInvariant()
      modifies this`inactivityTimerId, timers
      ensures TimerInvariant()
      ensures inactivityTimerId.None? && timers.pending == map[] && timers.next == old(timers.next)
    {
      if inactivityTimerId.Some? {
        timers.AfterCancel(inactivityTimerId.value);
        inactivityTimerId := None;
      }
      assert timers.pending == map[];
    }

    /** The loop of `_on_closing`: every card is removed and its live clipboard timer cancelled. */
    method DestroyCards()
      modifies this`tokenCards, CardTimers()
      ensures tokenCards == map[]
      ensures forall t :: t in old(CardTimers()) ==> !t.alive
    {
      ghost var cards := tokenCards;
      ghost var cardTimers := CardTimers();
      while tokenCards != map[]
        invariant tokenCards.Keys <= cards.Keys
        invariant forall id :: id in tokenCards ==> tokenCards[id] == cards[id]
        invariant forall id :: id in cards && id !in tokenCards ==>
          cards[id].clipboardClearTimer == null || !cards[id].clipboardClearTimer.alive
        decreases tokenCards.Keys
      {
        var cardIdentifier :| cardIdentifier in tokenCards;
        var card := tokenCards[cardIdentifier];
        ghost var before := tokenCards.Keys;
        tokenCards := tokenCards - {cardIdentifier};
        assert tokenCards.Keys == before - {cardIdentifier};
        if card.clipboardClearTimer != null && card.clipboardClearTimer.alive {
          assert card.clipboardClearTimer in cardTimers;
          card.clipboardClearTimer.Cancel();
        }
      }
      forall t | t in cardTimers
        ensures !t.alive
      {
        var id :| id in cards && cards[id].clipboardClearTimer == t;
      }
    }

    /**
     * `_on_closing()`: the auto-lock callback is cancelled, every card is
     * removed and its live clipboard timer cancelled, and the window is
     * destroyed.
     */
    method OnClosing()
      requires TimerInvariant()
      modifies this`inactivityTimerId, this`tokenCards, this`exited, timers, CardTimers()
      ensures inactivityTimerId.None? && timers.pending == map[]
      ensures tokenCards == map[] && exited
      ensures forall t :: t in old(CardTimers()) ==> !t.alive
    {
      CancelInactivityTimer();
      DestroyCards();
      exited := true;
    }

    /**
     * `_handle_initial_pin_check()`.  Without a stored PIN, the PIN chosen in
     * the set-up dialog (None when cancelled) is stored with the drawn salt
     * and unlocks; an empty PIN, one that `set_app_pin` rejects, or a
     * missing keyring ends the process.  With a stored PIN, the startup
     * prompt decides.
     */
    method HandleInitialPinCheck(setupPin: Option<string>, salt: AppLock.Salt, answers: seq<Option<string>>)
      returns (ok: bool, prompts: seq<string>)
      requires |answers| >= MaxPinAttempts && !exited
      modifies this`appUnlocked, this`pinAttempts, this`exited, lock
      ensures ok <==> appUnlocked && !exited
      ensures !ok ==> exited
      ensures AppLock.IsPinSet(old(lock.entries), lock.available) ==>
        && lock.entries == old(lock.entries)
        && 1 <= |prompts| <= MaxPinAttempts
        && (forall j :: 0 <= j < |prompts| ==> prompts[j] == PromptMessage(true, j))
        && (ok <==> Accepted(answers[|prompts| - 1]))
      ensures !AppLock.IsPinSet(old(lock.entries), lock.available) ==>
        && prompts == []
        && (ok <==> setupPin.Some? && |setupPin.value| >= AppLock.MinPinLength && lock.available)
        && (ok ==> lock.entries == AppLock.WritePin(old(lock.entries), lock.hash, setupPin.value, salt))
        && (ok ==> AppLock.VerifyPin(lock.entries, lock.available, lock.hash, setupPin.value))
        && (!ok ==> lock.entries == old(lock.entries))
    {
      if !AppLock.IsPinSet(lock.entries, lock.available) {
        prompts := [];
        if setupPin.Some? && setupPin.value != "" {
          var r := lock.SetAppPin(setupPin.value, salt);
          if r == AppLock.PinSet {
            AppLock.SetThenVerify(old(lock.entries), lock.hash, setupPin.value, salt);
            appUnlocked := true;
            return true, prompts;
          }
          QuitApplication();
          return false, prompts;
        }
        QuitApplication();
        return false, prompts;
      }
      ok, prompts := PromptForPinAndUnlock(true, answers);
    }
  }
}
