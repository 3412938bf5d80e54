// The client's screens: login, passphrase, recipients, chat, and errors in between.
module Session {
  import opened GpgKeys
  import R = Recipients

  datatype Screen = Login | RecipientMenu | ClientScreen | PassphrasePrompt | ErrorMessage

  /** The callback an error screen runs: none, back to a screen, or the chat
      screen's, which only sets that screen's own copy of the current screen. */
  datatype Handler = Unset | BackTo(screen: Screen) | ChatOnly

  datatype Event =
    | Up | Down | Take | Untake     // arrows and letters of the menus
    | Enter(sendFails: bool)        // in the chat, whether sending throws
    | Click                         // on the button of the shown screen
    | Edit(text: string)            // the passphrase field now holds text
    | Escape | Quit                 // Esc, and the letter q

  datatype State = State(
    screen: Screen,
    accounts: seq<Key>,       // secret keys listed at login
    cursor: int,
    account: Key,
    passphrase: string,
    menu: R.Menu,
    recipients: seq<Key>,
    handler: Handler,
    exited: bool)

  function Initial(accounts: seq<Key>, keys: seq<Key>): State {
    State(Login, accounts, 0, NullKey, "", R.Menu(keys, [], 0, false), [], Unset, false)
  }

  /** getSelected: the key under the cursor, or a null key. */
  function Selected(st: State): Key {
    if |st.accounts| > 0 && 0 <= st.cursor < |st.accounts| then st.accounts[st.cursor] else NullKey
  }

  function ShowError(st: State, back: Screen): State {
    st.(handler := BackTo(back), screen := ErrorMessage)
  }

  function LoginEnter(st: State): State {
    var chosen := st.(account := Selected(st));
    if chosen.account.NullKey? then chosen
    else if DecryptVerdict(chosen.account).Capable? then chosen.(screen := PassphrasePrompt)
    else ShowError(chosen, Login)
  }

  function Submit(g: Gpg, st: State): State {
    if PassphraseVerdict(g, st.account, st.passphrase).Capable? then st.(screen := RecipientMenu)
    else ShowError(st, PassphrasePrompt)
  }

  function ConfirmRecipients(st: State): State {
    var chosen := st.(recipients := R.Chosen(st.menu), menu := R.Step(st.menu, R.Enter));
    if chosen.recipients == [] then chosen
    else if KeysVerdict(chosen.recipients).Capable? then chosen.(screen := ClientScreen)
    else ShowError(chosen, RecipientMenu)
  }

  /** The error screen runs its handler. */
  function RunHandler(st: State): State {
    match st.handler
    case BackTo(screen) => st.(screen := screen)
    case _ => st
  }

  function ToMenu(e: Event): R.Event {
    match e
    case Up => R.ArrowUp
    case Down => R.ArrowDown
    case Take => R.Take
    case Untake => R.Untake
    case _ => R.Other
  }

  /** Only the shown screen gets an event. */
  function Step(g: Gpg, st: State, e: Event): State {
    if st.exited then st
    else
      match st.screen
      case Login =>
        (match e
         case Up => st.(cursor := R.Up(st.cursor, |st.accounts|))
         case Down => st.(cursor := R.Down(st.cursor, |st.accounts|))
         case Enter(_) => LoginEnter(st)
         case Escape => st.(exited := true)
         case Quit => st.(exited := true)
         case _ => st)
      case RecipientMenu =>
        (match e
         case Enter(_) => ConfirmRecipients(st)
         case Escape => st.(exited := true)
         case Quit => st.(exited := true)
         case _ => st.(menu := R.Step(st.menu, ToMenu(e))))
      case PassphrasePrompt =>
        (match e
         case Edit(text) => st.(passphrase := text)
         case Enter(_) => Submit(g, st)
         case Click => Submit(g, st)
         case Escape => st.(exited := true)
         case _ => st)
      case ErrorMessage =>
        (match e
         case Enter(_) => RunHandler(st)
         case Click => RunHandler(st)
         case Escape => st.(exited := true)
         case Quit => st.(exited := true)
         case _ => st)
      case ClientScreen =>
        (match e
         case Enter(fails) => if fails && st.recipients != [] then st.(handler := ChatOnly) else st
         case Escape => st.(exited := true)
         case _ => st)
  }

  function Run(g: Gpg, start: State, es: seq<Event>): State {
    if es == [] then start else Step(g, Run(g, start, es[..|es| - 1]), es[|es| - 1])
  }

  // ----- safety

  /** The account is a key that can decrypt. */
  predicate LoggedIn(st: State) {
    st.account.Key? && DecryptVerdict(st.account).Capable?
  }

  /** The oracle accepted the passphrase for that same account. */
  predicate Unlocked(g: Gpg, st: State) {
    LoggedIn(st) && PassphraseVerdict(g, st.account, st.passphrase).Capable?
  }

  /** There are recipients, and every one can be encrypted to. */
  predicate Addressed(st: State) {
    st.recipients != [] && KeysVerdict(st.recipients).Capable?
  }

  /** What must hold before a screen may be shown. */
  predicate Earned(g: Gpg, st: State, screen: Screen) {
    match screen
    case Login => true
    case PassphrasePrompt => LoggedIn(st)
    case RecipientMenu => Unlocked(g, st)
    case ClientScreen => Unlocked(g, st) && Addressed(st)
    case ErrorMessage => false
  }

  /** The shown screen is earned; an error screen has a handler, to an earned screen
      that is not the chat. */
  predicate Safe(g: Gpg, st: State) {
    if st.screen == ErrorMessage then
      st.handler.BackTo? && st.handler.screen != ClientScreen && Earned(g, st, st.handler.screen)
    else Earned(g, st, st.screen)
  }

  lemma SafeStep(g: Gpg, st: State, e: Event)
    requires Safe(g, st)
    ensures Safe(g, Step(g, st, e))
  {}

  lemma {:induction false} RunSafe(g: Gpg, accounts: seq<Key>, keys: seq<Key>, es: seq<Event>)
    ensures Safe(g, Run(g, Initial(accounts, keys), es))
  {
    if es != [] {
      RunSafe(g, accounts, keys, es[..|es| - 1]);
      SafeStep(g, Run(g, Initial(accounts, keys), es[..|es| - 1]), es[|es| - 1]);
    }
  }

  /** Whatever the user does, the chat is reached only with a key that can decrypt,
      a non-empty passphrase the oracle accepted for it, and recipients that can
      all be encrypted to. */
  lemma ChatIsEarned(g: Gpg, accounts: seq<Key>, keys: seq<Key>, es: seq<Event>)
    requires Run(g, Initial(accounts, keys), es).screen == ClientScreen
    ensures var st := Run(g, Initial(accounts, keys), es);
            && UsableToDecrypt(st.account)
            && st.passphrase != "" && OracleAccepts(g, st.account, st.passphrase)
            && st.recipients != [] && forall k <- st.recipients :: UsableToEncrypt(k)
  {
    RunSafe(g, accounts, keys, es);
    var st := Run(g, Initial(accounts, keys), es);
    PassphraseAcceptedIff(g, st.account, st.passphrase);
    KeysVerdictMeans(st.recipients);
  }

  // ----- progress

  function Rank(screen: Screen): nat {
    match screen
    case Login => 0
    case PassphrasePrompt => 1
    case RecipientMenu => 2
    case ClientScreen => 3
    case ErrorMessage => 0
  }

  /** How far the user has come; an error screen is as far as its origin. */
  function Progress(st: State): nat {
    if st.screen == ErrorMessage && st.handler.BackTo? then Rank(st.handler.screen) else Rank(st.screen)
  }

  /** A step never loses progress; it gains at most one screen; an error screen
      goes back where it came from. */
  lemma ProgressStep(g: Gpg, st: State, e: Event)
    requires Safe(g, st)
    ensures Progress(st) <= Progress(Step(g, st, e)) <= Progress(st) + 1
    ensures st.screen != ErrorMessage && Step(g, st, e).screen == ErrorMessage ==> Step(g, st, e).handler == BackTo(st.screen)
    ensures st.screen == ErrorMessage && Step(g, st, e).screen != ErrorMessage ==> Step(g, st, e).screen == st.handler.screen
  {}

  /** Over every run progress is monotone. */
  lemma {:induction false} RunProgress(g: Gpg, accounts: seq<Key>, keys: seq<Key>, es: seq<Event>, more: seq<Event>)
    ensures Progress(Run(g, Initial(accounts, keys), es)) <= Progress(Run(g, Initial(accounts, keys), es + more))
    decreases |more|
  {
    if more == [] {
      assert es + more == es;
    } else {
      var n := |more| - 1;
      var all := es + more;
      assert all[..|all| - 1] == es + more[..n] && all[|all| - 1] == more[n];
      RunProgress(g, accounts, keys, es, more[..n]);
      RunSafe(g, accounts, keys, es + more[..n]);
      ProgressStep(g, Run(g, Initial(accounts, keys), es + more[..n]), more[n]);
    }
  }

  /** Every error screen has a handler. */
  lemma {:induction false} ErrorHasHandler(g: Gpg, accounts: seq<Key>, keys: seq<Key>, es: seq<Event>)
    ensures var st := Run(g, Initial(accounts, keys), es);
            st.screen == ErrorMessage ==> st.handler.BackTo? && st.handler.screen != ErrorMessage
  {
    RunSafe(g, accounts, keys, es);
  }

  // ----- a failed send

  /** The chat's handler is stored only while the chat is shown. */
  predicate ChatKeepsHandler(st: State) {
    st.handler == ChatOnly ==> st.screen == ClientScreen
  }

  lemma ChatStep(g: Gpg, st: State, e: Event)
    requires ChatKeepsHandler(st)
    ensures ChatKeepsHandler(Step(g, st, e))
    ensures st.screen == ClientScreen ==> Step(g, st, e).screen == ClientScreen
  {}

  lemma {:induction false} RunKeepsHandler(g: Gpg, accounts: seq<Key>, keys: seq<Key>, es: seq<Event>)
    ensures ChatKeepsHandler(Run(g, Initial(accounts, keys), es))
  {
    if es != [] {
      RunKeepsHandler(g, accounts, keys, es[..|es| - 1]);
      ChatStep(g, Run(g, Initial(accounts, keys), es[..|es| - 1]), es[|es| - 1]);
    }
  }

  /** Once the chat is shown, it is shown ever after: whatever follows, failed sends
      included, no error screen is reached and no stored handler is ever run. */
  lemma {:induction false} ChatIsFinal(g: Gpg, accounts: seq<Key>, keys: seq<Key>, es: seq<Event>, more: seq<Event>)
    requires Run(g, Initial(accounts, keys), es).screen == ClientScreen
    ensures Run(g, Initial(accounts, keys), es + more).screen == ClientScreen
    decreases |more|
  {
    if more == [] {
      assert es + more == es;
    } else {
      var n := |more| - 1;
      var all := es + more;
      assert all[..|all| - 1] == es + more[..n] && all[|all| - 1] == more[n];
      ChatIsFinal(g, accounts, keys, es, more[..n]);
      RunKeepsHandler(g, accounts, keys, es + more[..n]);
      ChatStep(g, Run(g, Initial(accounts, keys), es + more[..n]), more[n]);
    }
  }

  /** So an error screen never shows what a send left behind: whenever one is shown,
      its handler is another screen's, and running it leads out of the error. */
  lemma FailedSendUnseen(g: Gpg, accounts: seq<Key>, keys: seq<Key>, es: seq<Event>)
    requires Run(g, Initial(accounts, keys), es).screen == ErrorMessage
    ensures var st := Run(g, Initial(accounts, keys), es);
            st.handler != ChatOnly && RunHandler(st).screen in {Login, PassphrasePrompt, RecipientMenu}
  {
    RunKeepsHandler(g, accounts, keys, es);
    RunSafe(g, accounts, keys, es);
  }

  /** The event that the recipient menu sees of an event, if any. */
  function Routed(st: State, e: Event): seq<R.Event> {
    if st.exited || st.screen != RecipientMenu || e.Escape? || e.Quit? then []
    else [if e.Enter? then R.Enter else ToMenu(e)]
  }

  /** The events that reached the recipient menu during a run. */
  function MenuEvents(g: Gpg, start: State, es: seq<Event>): seq<R.Event> {
    if es == [] then []
    else
      var front := es[..|es| - 1];
      MenuEvents(g, start, front) + Routed(Run(g, start, front), es[|es| - 1])
  }

  lemma MenuStep(g: Gpg, st: State, e: Event)
    ensures Step(g, st, e).menu == if Routed(st, e) == [] then st.menu else R.Step(st.menu, Routed(st, e)[0])
  {}

  /** In the chat the recipients are those the menu confirmed. */
  predicate Confirmed(st: State) {
    st.screen == ClientScreen ==> st.recipients == R.Chosen(st.menu)
  }

  lemma ConfirmedStep(g: Gpg, st: State, e: Event)
    requires Safe(g, st) && Confirmed(st)
    ensures Confirmed(Step(g, st, e))
  {}

  lemma {:induction false} MenuIsRun(g: Gpg, accounts: seq<Key>, keys: seq<Key>, es: seq<Event>)
    ensures var start := Initial(accounts, keys);
            Run(g, start, es).menu == R.Run(keys, MenuEvents(g, start, es)) && Confirmed(Run(g, start, es))
  {
    var start := Initial(accounts, keys);
    if es != [] {
      var front, e := es[..|es| - 1], es[|es| - 1];
      var before, ms := Run(g, start, front), MenuEvents(g, start, front);
      MenuIsRun(g, accounts, keys, front);
      RunSafe(g, accounts, keys, front);
      MenuStep(g, before, e);
      ConfirmedStep(g, before, e);
      var routed := Routed(before, e);
      if routed == [] {
        assert ms + routed == ms;
      } else {
        assert (ms + routed)[..|ms + routed| - 1] == ms;
      }
    }
  }

  /** A chat addresses exactly the keys whose last take or untake in the menu was a take. */
  lemma ChatAddressesTaken(g: Gpg, accounts: seq<Key>, keys: seq<Key>, es: seq<Event>)
    requires R.Listed(keys) && Run(g, Initial(accounts, keys), es).screen == ClientScreen
    ensures var start := Initial(accounts, keys);
            forall f :: R.Has(Run(g, start, es).recipients, f) <==> R.LastTaken(keys, MenuEvents(g, start, es), f)
  {
    MenuIsRun(g, accounts, keys, es);
    R.NothingDropped(keys, MenuEvents(g, Initial(accounts, keys), es));
  }

  lemma CursorStep(g: Gpg, st: State, e: Event)
    requires 0 <= st.cursor < |st.accounts| <= R.INT_MAX
    ensures Step(g, st, e).accounts == st.accounts && 0 <= Step(g, st, e).cursor < |st.accounts|
  {
    R.ArrowsWrap(st.cursor, |st.accounts|);
  }

  /** Over a non-empty list the login cursor stays on a listed account. */
  lemma {:induction false} CursorInRange(g: Gpg, accounts: seq<Key>, keys: seq<Key>, es: seq<Event>)
    requires 0 < |accounts| <= R.INT_MAX
    ensures var st := Run(g, Initial(accounts, keys), es); st.accounts == accounts && 0 <= st.cursor < |accounts|
  {
    if es != [] {
      CursorInRange(g, accounts, keys, es[..|es| - 1]);
      CursorStep(g, Run(g, Initial(accounts, keys), es[..|es| - 1]), es[|es| - 1]);
    }
  }

  // ----- the screens as they run: callbacks that assign shared variables

  class App {
    const g: Gpg
    const accounts: seq<Key>
    const recipientUI: R.RecipientMenu
    var currentScreen: Screen
    var cursor: int
    var clientAccount: Key
    var passphrase: string
    var recipientKeys: seq<Key>
    var errorHandler: Handler
    var exited: bool

    function Abs(): State
      reads this, recipientUI
    {
      State(currentScreen, accounts, cursor, clientAccount, passphrase, recipientUI.Abs(), recipientKeys, errorHandler, exited)
    }

    constructor (g: Gpg, accounts: seq<Key>, keys: seq<Key>)
      ensures fresh(recipientUI) && this.g == g && Abs() == Initial(accounts, keys)
    {
      this.g, this.accounts := g, accounts;
      var menu := new R.RecipientMenu(keys);
      recipientUI := menu;
      currentScreen, cursor, clientAccount, passphrase := Login, 0, NullKey, "";
      recipientKeys, errorHandler, exited := [], Unset, false;
    }

    /** The error screen's way out: a handler back to a screen. */
    method Fail(back: Screen)
      modifies this`errorHandler, this`currentScreen
      ensures errorHandler == BackTo(back) && currentScreen == ErrorMessage
    {
      errorHandler := BackTo(back);
      currentScreen := ErrorMessage;
    }

    /** Enter on the login screen. */
    method OnLogin()
      requires !exited && currentScreen == Login
      modifies this
      ensures Abs() == Step(g, old(Abs()), Enter(false))
    {
      clientAccount := if |accounts| > 0 && 0 <= cursor < |accounts| then accounts[cursor] else NullKey;
      if !clientAccount.NullKey? {
        var v := CanKeyDecrypt(clientAccount);
        if v.Capable? {
          currentScreen := PassphrasePrompt;
        } else {
          Fail(Login);
        }
      }
    }

    /** An arrow on the login screen: int and size_t as the code mixes them. */
    method OnLoginArrow(up: bool)
      requires !exited && currentScreen == Login
      modifies this`cursor
      ensures Abs() == Step(g, old(Abs()), if up then Up else Down)
    {
      if up {
        if cursor > 0 { cursor := cursor - 1; } else { cursor := R.ToInt(R.ToSize(|accounts| - 1)); }
      } else {
        if R.ToSize(cursor) < R.ToSize(|accounts| - 1) { cursor := cursor + 1; } else { cursor := 0; }
      }
    }

    /** The passphrase field is edited in place. */
    method OnEdit(text: string)
      requires !exited && currentScreen == PassphrasePrompt
      modifies this`passphrase
      ensures Abs() == Step(g, old(Abs()), Edit(text))
    {
      passphrase := text;
    }

    /** Any other event on the recipient menu goes to the menu. */
    method OnMenu(e: Event)
      requires !exited && currentScreen == RecipientMenu && !e.Enter? && !e.Escape? && !e.Quit?
      modifies recipientUI
      ensures Abs() == Step(g, old(Abs()), e)
    {
      recipientUI.OnEvent(ToMenu(e));
    }

    /** Esc leaves every screen. */
    method OnEscape()
      modifies this`exited
      ensures Abs() == Step(g, old(Abs()), Escape)
    {
      exited := true;
    }

    /** Enter, or the button, on the passphrase prompt. */
    method OnSubmit()
      requires !exited && currentScreen == PassphrasePrompt
      modifies this
      ensures Abs() == Step(g, old(Abs()), Click)
    {
      if PassphraseVerdict(g, clientAccount, passphrase).Capable? {
        currentScreen := RecipientMenu;
      } else {
        Fail(PassphrasePrompt);
      }
    }

    /** Enter on the recipient menu: every recipient is checked, the first bad one throws. */
    method OnConfirm()
      requires !exited && currentScreen == RecipientMenu
      modifies this, recipientUI
      ensures Abs() == Step(g, old(Abs()), Enter(false))
    {
      recipientKeys := R.Chosen(recipientUI.Abs());
      var allChecked, threw := false, false;
      if |recipientKeys| > 0 {
        var i := 0;
        while i < |recipientKeys| && !threw
          invariant i <= |recipientKeys|
          invariant !threw ==> KeysVerdict(recipientKeys) == KeysVerdict(recipientKeys[i..])
          invariant !threw ==> (allChecked <==> i > 0)
          invariant threw ==> KeysVerdict(recipientKeys).Throws?
          modifies {}
          decreases |recipientKeys| - i, !threw
        {
          assert recipientKeys[i..][1..] == recipientKeys[i + 1..];
          var v := CanKeyEncrypt(recipientKeys[i]);
          if v.Capable? {
            allChecked := true;
            i := i + 1;
          } else {
            threw := true;
          }
        }
        assert !threw ==> recipientKeys[i..] == [];
        if threw {
          allChecked := false;
          Fail(RecipientMenu);
        }
        if allChecked {
          currentScreen := ClientScreen;
        }
      }
      recipientUI.OnEvent(R.Enter);
    }

    /** Enter, or the button, on the error screen. */
    method OnErrorReturn()
      requires !exited && currentScreen == ErrorMessage
      modifies this`currentScreen
      ensures Abs() == Step(g, old(Abs()), Click)
    {
      if errorHandler.BackTo? {
        currentScreen := errorHandler.screen;
      }
    }

    /** Enter in the chat when sending throws: the shared handler is replaced, the
        shown screen is not, for the chat keeps its own copy of it. */
    method OnSendFailed()
      requires !exited && currentScreen == ClientScreen && recipientKeys != []
      modifies this`errorHandler
      ensures Abs() == Step(g, old(Abs()), Enter(true))
    {
      errorHandler := ChatOnly;
    }
  }
}
