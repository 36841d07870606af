/**
 * The lobby's admission gate (public/lobby/lobby.js): a code typed by the
 * player is checked against the players collection, the admitted player is
 * remembered in the browser's storage, and that remembered code is checked
 * again when the page next loads.
 *
 * `localStorage` is the map `Gate.storage` (only its keys `playerCode` and
 * `playerName` are ever touched); the collection is passed to each step that
 * reads it, and a `getDoc` that rejects is the step's `fault` parameter.
 */
module Lobby {
  import opened Directory
  import opened CodeFormat

  /** What `fetchPlayerByCode` hands back for an admissible code. */
  datatype Player = Player(name: string, code: string, active: bool)

  /** The page shows either the gate panel or the lobby for one player. */
  datatype View = Unauthenticated | Admitted(player: Player)

  /** The gate's status line. */
  datatype GateMessage =
    | Blank
    | EnterValidCode
    | InvalidOrInactive
    | UnableToVerify
    | UnableToVerifyStored
    | UnableToInitialise

  /** The gate's status text; only the blank message shows nothing. */
  function MessageText(m: GateMessage): (text: string)
    ensures text == "" <==> m == Blank
  {
    match m
    case Blank => ""
    case EnterValidCode => "Enter a 3–16 character code (A–Z, 0–9)."
    case InvalidOrInactive => "Invalid or inactive code."
    case UnableToVerify => "Unable to verify code."
    case UnableToVerifyStored => "Unable to verify stored code."
    case UnableToInitialise => "Unable to initialise lobby."
  }

  /** Where the page is in its start-up: loading, stopped because Firebase would not initialise, or handling events. */
  datatype Phase = Booting | Halted | Running

  // ---------------------------------------------------------------- resolution

  /**
   * `fetchPlayerByCode`: nothing when the store is not initialised, when no
   * document has the code as its id, or when the document's `active` is the
   * literal `false`; a document whose `active` is absent is admitted like one
   * whose `active` is `true`. The player carries the looked-up key as its
   * code and the document's name, or `""` when that is missing or empty.
   */
  function FetchPlayer(ready: bool, store: Store, code: string): (p: Option<Player>)
    ensures p.None? <==> !ready || code !in store || store[code].active == ActiveFalse
    ensures p.Some? ==> p.value.code == code && p.value.active
    ensures p.Some? && p.value.name != "" ==> store[code].name == Some(p.value.name)
    ensures p.Some? && p.value.name == "" ==> store[code].name == None || store[code].name == Some("")
  {
    if !ready then None
    else if code !in store then None
    else if store[code].active == ActiveFalse then None
    else Some(Player(OrElse(store[code].name, ""), code, store[code].active != ActiveFalse))
  }

  /** Only the literal `false` revokes: an entry with `active` absent resolves exactly as the same entry with `active` true. */
  lemma OnlyFalseRevokes(store: Store, code: string, e: Entry)
    ensures FetchPlayer(true, store[code := e.(active := ActiveAbsent)], code)
         == FetchPlayer(true, store[code := e.(active := ActiveTrue)], code)
    ensures FetchPlayer(true, store[code := e.(active := ActiveTrue)], code).Some?
    ensures FetchPlayer(true, store[code := e.(active := ActiveFalse)], code).None?
  {
  }

  // ---------------------------------------------------------------- the session cache

  /** The browser's local storage. */
  type Storage = map<string, string>

  const CodeKey := "playerCode"
  const NameKey := "playerName"

  /** `localStorage.getItem("playerCode")`: null when the key is not there. */
  function StoredCode(storage: Storage): (stored: Option<string>)
    ensures stored.Some? <==> CodeKey in storage
    ensures stored.Some? ==> stored.value == storage[CodeKey]
  {
    if CodeKey in storage then Some(storage[CodeKey]) else None
  }

  /** The start-up test `if (storedCode)`: a stored code that is neither missing nor empty. */
  predicate HasStoredCode(storage: Storage): (present: bool)
    ensures present <==> StoredCode(storage).Some? && StoredCode(storage).value != ""
  {
    CodeKey in storage && storage[CodeKey] != ""
  }

  /**
   * `cachePlayer`: a player is saved under the two keys, no player removes
   * both; every other key of the storage is left as it was.
   */
  function Cached(storage: Storage, player: Option<Player>): (after: Storage)
    ensures player.Some? ==> CodeKey in after && after[CodeKey] == player.value.code
    ensures player.Some? ==> NameKey in after && after[NameKey] == player.value.name
    ensures player.None? ==> CodeKey !in after && NameKey !in after
    ensures forall k :: k != CodeKey && k != NameKey ==> (k in after <==> k in storage)
    ensures forall k :: k in after && k != CodeKey && k != NameKey ==> after[k] == storage[k]
  {
    match player
    case Some(p) => storage[CodeKey := p.code][NameKey := p.name]
    case None => storage - {CodeKey} - {NameKey}
  }

  /**
   * Cache round trip: after caching a player the stored code reads back as the
   * player's code (so the next start-up finds one unless the code is empty);
   * after caching no player it reads back as absent.
   */
  lemma CacheRoundTrip(storage: Storage, p: Player)
    ensures StoredCode(Cached(storage, Some(p))) == Some(p.code)
    ensures HasStoredCode(Cached(storage, Some(p))) <==> p.code != ""
    ensures StoredCode(Cached(storage, None)) == None
    ensures !HasStoredCode(Cached(storage, None))
    ensures Cached(Cached(storage, Some(p)), None) == Cached(storage, None)
  {
    assert Cached(Cached(storage, Some(p)), None).Keys == Cached(storage, None).Keys;
  }

  /**
   * A code admitted through the gate survives a reload: start-up reads it back,
   * upper-cases it (which leaves a valid code as it is) and resolves it to the
   * same player, as long as the store still admits it.
   */
  lemma {:induction false} ReloadReadmits(storage: Storage, store: Store, code: string)
    requires IsValidCode(code) && FetchPlayer(true, store, code).Some?
    ensures var p := FetchPlayer(true, store, code).value;
            var saved := Cached(storage, Some(p));
            && HasStoredCode(saved)
            && FetchPlayer(true, store, Upper(saved[CodeKey])) == Some(p)
  {
    ValidCodeIsNormal(code);
  }

  // ---------------------------------------------------------------- the page

  /**
   * The lobby page: the session cache, what it shows, the code box and the
   * gate button. The page is taken to be the only writer of the two cached
   * keys; another tab of the same site would share them.
   */
  class Gate {
    var storage: Storage
    var ready: bool
    var phase: Phase
    var view: View
    var message: GateMessage
    var codeInput: string
    var buttonDisabled: bool
    /** The code whose verification is awaited, if a click is in flight. */
    var inFlight: Option<string>

    /** The lobby shows a player exactly when the cache holds that player, and no one while it holds no code. */
    ghost predicate SessionMatchesView()
      reads this
    {
      match view
      case Admitted(p) =>
        && p.active
        && CodeKey in storage && storage[CodeKey] == p.code
        && NameKey in storage && storage[NameKey] == p.name
      case Unauthenticated => !HasStoredCode(storage)
    }

    ghost predicate Valid()
      reads this
    {
      && (phase == Halted ==> !ready && buttonDisabled && inFlight.None?)
      && (phase == Booting ==> !ready && !buttonDisabled && inFlight.None?)
      && (phase == Running ==> ready && (buttonDisabled <==> inFlight.Some?) && SessionMatchesView())
      && (inFlight.Some? ==> IsValidCode(inFlight.value))
    }

    /**
     * The page as loaded, with whatever an earlier visit left in storage. The
     * script sets no panel before start-up ends, so the initial view is the
     * markup's; it is taken to be the gate (`Unauthenticated`), with an empty
     * box and a blank status.
     */
    constructor (storage: Storage)
      ensures Valid() && phase == Booting
      ensures this.storage == storage && view == Unauthenticated && message == Blank
      ensures codeInput == "" && !buttonDisabled && inFlight.None?
    {
      this.storage := storage;
      ready := false;
      phase := Booting;
      view := Unauthenticated;
      message := Blank;
      codeInput := "";
      buttonDisabled := false;
      inFlight := None;
    }

    /** `cachePlayer`: `setItem` twice, or `removeItem` twice. */
    method CachePlayer(player: Option<Player>)
      modifies this`storage
      ensures storage == Cached(old(storage), player)
    {
      match player {
        case Some(p) =>
          storage := storage[CodeKey := p.code];
          storage := storage[NameKey := p.name];
        case None =>
          storage := storage - {CodeKey};
          storage := storage - {NameKey};
      }
    }

    /**
     * Typing in the code box. The listener that upper-cases the box's value is
     * attached only once the store has initialised; before that, or when
     * start-up halted, the box keeps what was typed.
     */
    method TypeCode(text: string)
      requires Valid()
      modifies this`codeInput
      ensures Valid()
      ensures codeInput == (if phase == Running then Upper(text) else text)
    {
      if phase == Running {
        codeInput := Upper(text);
      } else {
        codeInput := text;
      }
    }

    /**
     * The start-up block. If Firebase does not initialise, the gate says so
     * and its button stays disabled, and no handler is ever attached.
     * Otherwise a stored code (missing or empty counts as none) is only
     * upper-cased, put in the code box and resolved: a player is admitted and
     * re-cached; an unknown or revoked code clears the cache silently; a
     * failed lookup clears the cache and says so. With no stored code the
     * gate is shown and the storage left alone.
     */
    method Start(initOk: bool, store: Store, fault: bool)
      requires Valid() && phase == Booting
      modifies this
      ensures Valid() && inFlight.None?
      ensures !initOk ==> && phase == Halted && message == UnableToInitialise && buttonDisabled
                          && storage == old(storage) && view == old(view) && codeInput == old(codeInput)
      ensures initOk && !HasStoredCode(old(storage)) ==>
                && phase == Running && !buttonDisabled
                && view == Unauthenticated && storage == old(storage)
                && message == old(message) && codeInput == old(codeInput)
      ensures initOk && HasStoredCode(old(storage)) ==>
                var code := Upper(old(storage)[CodeKey]);
                var found := FetchPlayer(true, store, code);
                && phase == Running && !buttonDisabled && codeInput == code
                && (fault ==> storage == Cached(old(storage), None) && view == Unauthenticated
                              && message == UnableToVerifyStored)
                && (!fault && found.Some? ==> storage == Cached(old(storage), found) && view == Admitted(found.value)
                                              && message == Blank)
                && (!fault && found.None? ==> storage == Cached(old(storage), None) && view == Unauthenticated
                                              && message == old(message))
    {
      if !initOk {
        message := UnableToInitialise;
        buttonDisabled := true;
        phase := Halted;
        return;
      }
      ready := true;

      var stored := StoredCode(storage);
      if stored.Some? && stored.value != "" {
        var code := Upper(stored.value);
        codeInput := code;
        if fault {
          CachePlayer(None);
          view := Unauthenticated;
          message := UnableToVerifyStored;
        } else {
          var player := FetchPlayer(ready, store, code);
          if player.Some? {
            CachePlayer(player);
            view := Admitted(player.value);
            message := Blank;
          } else {
            CachePlayer(None);
            view := Unauthenticated;
          }
        }
      } else {
        view := Unauthenticated;
      }
      phase := Running;
    }

    /**
     * `trySignInWithCode`: resolve the code; on success cache the player, show
     * the lobby and clear the status; otherwise say the code is invalid or
     * inactive, clear the cache and show the gate.
     */
    method TrySignIn(store: Store, code: string) returns (ok: bool)
      modifies this`storage, this`view, this`message
      ensures var found := FetchPlayer(ready, store, code);
              && ok == found.Some?
              && storage == Cached(old(storage), found)
              && view == (if ok then Admitted(found.value) else Unauthenticated)
              && message == (if ok then Blank else InvalidOrInactive)
    {
      var player := FetchPlayer(ready, store, code);
      if player.None? {
        message := InvalidOrInactive;
        CachePlayer(None);
        view := Unauthenticated;
        return false;
      }
      CachePlayer(player);
      view := Admitted(player.value);
      message := Blank;
      return true;
    }

    /**
     * The gate button's click, up to the moment it waits for the store: the
     * status is cleared and the box is rewritten with the trimmed, upper-cased
     * code; a malformed code is reported and nothing else happens; a
     * well-formed one disables the button while its lookup is awaited.
     * A disabled button delivers no click, hence the precondition.
     */
    method Submit()
      requires Valid() && phase == Running && !buttonDisabled
      modifies this`message, this`codeInput, this`buttonDisabled, this`inFlight
      ensures Valid()
      ensures codeInput == NormalizeCode(old(codeInput))
      ensures IsValidCode(codeInput) ==> inFlight == Some(codeInput) && buttonDisabled && message == Blank
      ensures !IsValidCode(codeInput) ==> inFlight.None? && !buttonDisabled && message == EnterValidCode
    {
      message := Blank;
      var code := NormalizeCode(codeInput);
      codeInput := code;
      if !CodeRegexTest(code) {
        message := EnterValidCode;
        return;
      }
      buttonDisabled := true;
      inFlight := Some(code);
    }

    /**
     * The rest of the click, once the lookup answers: sign in with the code,
     * emptying the box on success; a lookup that throws leaves the cache and
     * the view as they were and says the code could not be verified. Either
     * way the button is enabled again.
     */
    method Complete(store: Store, fault: bool)
      requires Valid() && inFlight.Some?
      modifies this`storage, this`view, this`message, this`codeInput, this`buttonDisabled, this`inFlight
      ensures Valid() && inFlight.None? && !buttonDisabled
      ensures fault ==> && storage == old(storage) && view == old(view)
                        && message == UnableToVerify && codeInput == old(codeInput)
      ensures !fault ==> var found := FetchPlayer(true, store, old(inFlight).value);
                         && storage == Cached(old(storage), found)
                         && view == (if found.Some? then Admitted(found.value) else Unauthenticated)
                         && message == (if found.Some? then Blank else InvalidOrInactive)
                         && codeInput == (if found.Some? then "" else old(codeInput))
    {
      var code := inFlight.value;
      if fault {
        message := UnableToVerify;
      } else {
        var ok := TrySignIn(store, code);
        if ok {
          codeInput := "";
        }
      }
      buttonDisabled := false;
      inFlight := None;
    }

    /** "Change player": forget the session, show the gate and empty the box; the store is not consulted. */
    method ChangePlayer()
      requires Valid() && phase == Running
      modifies this`storage, this`view, this`codeInput, this`message
      ensures Valid()
      ensures storage == Cached(old(storage), None) && view == Unauthenticated
      ensures codeInput == "" && message == Blank
    {
      CachePlayer(None);
      view := Unauthenticated;
      codeInput := "";
      message := Blank;
    }
  }
}
