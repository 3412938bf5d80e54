// Where the client's screens lead: which event shows which screen, exactly when, and
// that the chat can be reached exactly when there are keys for it.
module SessionFlow {
  import opened GpgKeys
  import opened Session
  import R = Recipients

  predicate Runs(st: State, screen: Screen) {
    !st.exited && st.screen == screen
  }

  predicate Submits(e: Event) {
    e.Enter? || e.Click?
  }

  // ----- one step

  /** Enter at login stores the account under the cursor, and nothing else does: a key
      that can decrypt leads to the passphrase, another key to an error, no key nowhere. */
  lemma LoginLeads(g: Gpg, st: State, e: Event)
    ensures var next := Step(g, st, e);
            if Runs(st, Login) && e.Enter? then
              && next.account == (if 0 <= st.cursor < |st.accounts| then st.accounts[st.cursor] else NullKey)
              && (next.screen == PassphrasePrompt <==> UsableToDecrypt(next.account))
              && (next.screen == Login <==> next.account.NullKey?)
              && (next.screen == ErrorMessage <==> next.account.Key? && !UsableToDecrypt(next.account))
              && (next.screen == ErrorMessage ==> next.handler == BackTo(Login))
            else next.account == st.account
  {
    VerdictsMean(Selected(st));
  }

  /** A passphrase leads on if and only if it is accepted, else to an error. */
  lemma PassphraseLeads(g: Gpg, st: State, e: Event)
    requires Runs(st, PassphrasePrompt) && Submits(e)
    ensures var next := Step(g, st, e);
            && (next.screen == RecipientMenu <==> Accepted(g, st.account, st.passphrase))
            && (next.screen == ErrorMessage <==> !Accepted(g, st.account, st.passphrase))
            && (next.screen == ErrorMessage ==> next.handler == BackTo(PassphrasePrompt))
  {
    PassphraseAcceptedIff(g, st.account, st.passphrase);
  }

  /** The key works both ways, and the oracle accepts the passphrase for it. */
  ghost predicate Accepted(g: Gpg, key: Key, passphrase: string) {
    g.starts && UsableToEncrypt(key) && UsableToDecrypt(key) && passphrase != "" && OracleAccepts(g, key, passphrase)
  }

  /** Confirmed recipients lead on if and only if there are some and all can be
      encrypted to; a bad one leads to an error, none nowhere. */
  lemma RecipientsLead(g: Gpg, st: State, e: Event)
    requires Runs(st, RecipientMenu) && e.Enter?
    ensures var next, chosen := Step(g, st, e), R.Chosen(st.menu);
            && next.recipients == chosen
            && (next.screen == ClientScreen <==> chosen != [] && forall k <- chosen :: UsableToEncrypt(k))
            && (next.screen == RecipientMenu <==> chosen == [])
            && (next.screen == ErrorMessage <==> chosen != [] && exists k <- chosen :: !UsableToEncrypt(k))
            && (next.screen == ErrorMessage ==> next.handler == BackTo(RecipientMenu))
  {
    KeysVerdictMeans(R.Chosen(st.menu));
  }

  /** The error screen leads back to where it came from. */
  lemma ErrorLeads(g: Gpg, st: State, e: Event)
    requires Runs(st, ErrorMessage) && st.handler.BackTo? && st.handler.screen != ErrorMessage
    ensures Step(g, st, e).screen == if Submits(e) then st.handler.screen else ErrorMessage
  {}

  /** No other event changes the screen. */
  lemma StaysOn(g: Gpg, st: State, e: Event)
    requires st.exited || st.screen == ClientScreen || !Submits(e) || (e.Click? && st.screen in {Login, RecipientMenu})
    ensures Step(g, st, e).screen == st.screen
  {}

  /** The application ends by Esc on any screen, and by q on those without a text field. */
  lemma ExitsIff(g: Gpg, st: State, e: Event)
    requires !st.exited
    ensures Step(g, st, e).exited <==> e.Escape? || (e.Quit? && st.screen in {Login, RecipientMenu, ErrorMessage})
  {}

  /** The recipient menu sees arrows, takes, untakes and Enter for what they are, when
      it is shown, and no event that another screen gets. */
  lemma MenuSees(g: Gpg, st: State, e: Event)
    ensures var n := Step(g, st, e).menu;
            if !Runs(st, RecipientMenu) then n == st.menu
            else
              && (e.Up? ==> n == R.Step(st.menu, R.ArrowUp)) && (e.Down? ==> n == R.Step(st.menu, R.ArrowDown))
              && (e.Take? ==> n == R.Step(st.menu, R.Take)) && (e.Untake? ==> n == R.Step(st.menu, R.Untake))
              && (e.Enter? ==> n == R.Step(st.menu, R.Enter))
              && (e.Click? || e.Edit? || e.Escape? || e.Quit? ==> n == st.menu)
  {}

  /** And that is what counts as its events in a run. */
  lemma RoutedIff(st: State, e: Event)
    ensures Routed(st, e) == [R.Take] <==> Runs(st, RecipientMenu) && e.Take?
    ensures Routed(st, e) == [R.Untake] <==> Runs(st, RecipientMenu) && e.Untake?
    ensures Routed(st, e) == [R.ArrowUp] <==> Runs(st, RecipientMenu) && e.Up?
    ensures Routed(st, e) == [R.ArrowDown] <==> Runs(st, RecipientMenu) && e.Down?
    ensures Routed(st, e) == [R.Enter] <==> Runs(st, RecipientMenu) && e.Enter?
  {}

  // ----- whose account it is

  function Arrows(st: State, e: Event): seq<R.Event> {
    if Runs(st, Login) && e.Up? then [R.ArrowUp] else if Runs(st, Login) && e.Down? then [R.ArrowDown] else []
  }

  /** The arrows pressed on the login screen during a run. */
  function LoginArrows(g: Gpg, start: State, es: seq<Event>): seq<R.Event> {
    if es == [] then []
    else
      var front := es[..|es| - 1];
      LoginArrows(g, start, front) + Arrows(Run(g, start, front), es[|es| - 1])
  }

  lemma ChosenStep(g: Gpg, st: State, e: Event)
    requires st.screen != Login ==> st.account == Selected(st)
    ensures var next := Step(g, st, e); next.screen != Login ==> next.account == Selected(next)
    ensures Step(g, st, e).accounts == st.accounts
    ensures Step(g, st, e).cursor == if Arrows(st, e) == [] then st.cursor
                                     else if e.Up? then R.Up(st.cursor, |st.accounts|) else R.Down(st.cursor, |st.accounts|)
  {}

  lemma ArrowsStep(st: State, e: Event, pressed: seq<R.Event>, n: nat)
    requires 0 < n <= R.INT_MAX && st.cursor == R.Downs(pressed) % n
    ensures R.Downs(pressed + Arrows(st, e)) % n
         == if Arrows(st, e) == [] then st.cursor else if e.Up? then R.Up(st.cursor, n) else R.Down(st.cursor, n)
  {
    if Arrows(st, e) == [] {
      assert pressed + [] == pressed;
    } else {
      R.CursorStep(st.cursor, pressed, Arrows(st, e)[0], n);
    }
  }

  /** Beyond login the account is the listed one that the arrows pressed there lead to:
      downs minus ups, modulo the number of accounts. */
  lemma {:induction false} AccountIsChosen(g: Gpg, accounts: seq<Key>, keys: seq<Key>, es: seq<Event>)
    requires 0 < |accounts| <= R.INT_MAX
    ensures var st, n := Run(g, Initial(accounts, keys), es), R.Downs(LoginArrows(g, Initial(accounts, keys), es)) % |accounts|;
            st.accounts == accounts && st.cursor == n && (st.screen != Login ==> st.account == accounts[n])
  {
    if es != [] {
      var start, front, e := Initial(accounts, keys), es[..|es| - 1], es[|es| - 1];
      AccountIsChosen(g, accounts, keys, front);
      var st, pressed := Run(g, start, front), LoginArrows(g, start, front);
      ChosenStep(g, st, e);
      ArrowsStep(st, e, pressed, |accounts|);
      hide Step, Arrows, Selected, R.Downs, R.Up, R.Down;
    }
  }

  // ----- when the chat can be reached

  lemma RunMore(g: Gpg, start: State, es: seq<Event>, e: Event)
    ensures Run(g, start, es + [e]) == Step(g, Run(g, start, es), e)
  {
    assert (es + [e])[..|es + [e]| - 1] == es;
  }

  /** The login cursor reaches every account. */
  lemma {:induction false} CursorReaches(g: Gpg, accounts: seq<Key>, keys: seq<Key>, i: nat) returns (es: seq<Event>)
    requires i < |accounts| <= R.INT_MAX
    ensures Run(g, Initial(accounts, keys), es) == Initial(accounts, keys).(cursor := i)
  {
    if i == 0 {
      es := [];
    } else {
      var before := CursorReaches(g, accounts, keys, i - 1);
      R.ArrowsWrap(i - 1, |accounts|);
      RunMore(g, Initial(accounts, keys), before, Down);
      es := before + [Down];
    }
  }

  /** The menu's cursor reaches every key. */
  lemma {:induction false} MenuReaches(g: Gpg, start: State, es: seq<Event>, i: nat) returns (all: seq<Event>)
    requires var st := Run(g, start, es);
             Runs(st, RecipientMenu) && i < |st.menu.keys| <= R.INT_MAX && st.menu.selected == 0
    ensures var st := Run(g, start, es); Run(g, start, all) == st.(menu := st.menu.(selected := i))
  {
    if i == 0 {
      all := es;
    } else {
      var before := MenuReaches(g, start, es, i - 1);
      R.ArrowsWrap(i - 1, |Run(g, start, es).menu.keys|);
      RunMore(g, start, before, Down);
      all := before + [Down];
    }
  }

  /** With an account and its passphrase the recipient menu is reached. */
  lemma Unlocks(g: Gpg, accounts: seq<Key>, keys: seq<Key>, i: nat, passphrase: string) returns (es: seq<Event>)
    requires i < |accounts| <= R.INT_MAX && Accepted(g, accounts[i], passphrase)
    ensures var st := Run(g, Initial(accounts, keys), es); Runs(st, RecipientMenu) && st.menu == R.Menu(keys, [], 0, false)
  {
    var start := Initial(accounts, keys);
    var there := CursorReaches(g, accounts, keys, i);
    VerdictsMean(accounts[i]);
    PassphraseAcceptedIff(g, accounts[i], passphrase);
    hide PassphraseVerdict, DecryptVerdict;
    RunMore(g, start, there, Enter(false));
    RunMore(g, start, there + [Enter(false)], Edit(passphrase));
    RunMore(g, start, there + [Enter(false)] + [Edit(passphrase)], Enter(false));
    es := there + [Enter(false)] + [Edit(passphrase)] + [Enter(false)];
  }

  /** With a key that can be encrypted to the chat is reached from there. */
  lemma Addresses(g: Gpg, start: State, es: seq<Event>, i: nat) returns (all: seq<Event>)
    requires var st := Run(g, start, es);
             && Runs(st, RecipientMenu) && st.menu.recipients == [] && st.menu.selected == 0
             && i < |st.menu.keys| <= R.INT_MAX && UsableToEncrypt(st.menu.keys[i])
    ensures Run(g, start, all).screen == ClientScreen
  {
    var there := MenuReaches(g, start, es, i);
    var st := Run(g, start, there);
    var k := st.menu.keys[i];
    RunMore(g, start, there, Take);
    RunMore(g, start, there + [Take], Enter(false));
    KeysVerdictMeans([k]);
    assert R.Step(st.menu, R.Take).recipients == [] + [k] == [k];
    all := there + [Take] + [Enter(false)];
  }

  /** What a chat needs: an account that works both ways with a passphrase the oracle
      accepts for it, and a key that can be encrypted to. */
  ghost predicate ChatPossible(g: Gpg, accounts: seq<Key>, keys: seq<Key>) {
    && (exists a <- accounts, passphrase: string :: Accepted(g, a, passphrase))
    && (exists k <- keys :: UsableToEncrypt(k))
  }

  /** Some run of events leads to the chat. */
  ghost predicate ChatReachable(g: Gpg, accounts: seq<Key>, keys: seq<Key>) {
    exists es :: Run(g, Initial(accounts, keys), es).screen == ClientScreen
  }

  /** The chat can be reached if and only if there are keys for it. */
  lemma ChatReachableIff(g: Gpg, accounts: seq<Key>, keys: seq<Key>)
    requires 0 < |accounts| <= R.INT_MAX && R.Listed(keys)
    ensures ChatReachable(g, accounts, keys) <==> ChatPossible(g, accounts, keys)
  {
    if ChatReachable(g, accounts, keys) {
      var es :| Run(g, Initial(accounts, keys), es).screen == ClientScreen;
      ChatNeeds(g, accounts, keys, es);
    }
    if ChatPossible(g, accounts, keys) {
      var a, passphrase :| a in accounts && Accepted(g, a, passphrase);
      var i :| 0 <= i < |accounts| && accounts[i] == a;
      var k :| k in keys && UsableToEncrypt(k);
      var j :| 0 <= j < |keys| && keys[j] == k;
      var es := Unlocks(g, accounts, keys, i, passphrase);
      var all := Addresses(g, Initial(accounts, keys), es, j);
    }
  }

  lemma ChatNeeds(g: Gpg, accounts: seq<Key>, keys: seq<Key>, es: seq<Event>)
    requires 0 < |accounts| <= R.INT_MAX && R.Listed(keys) && Run(g, Initial(accounts, keys), es).screen == ClientScreen
    ensures ChatPossible(g, accounts, keys)
  {
    var st := Run(g, Initial(accounts, keys), es);
    RunSafe(g, accounts, keys, es);
    AccountIsChosen(g, accounts, keys, es);
    MenuIsRun(g, accounts, keys, es);
    R.RunRefines(keys, MenuEvents(g, Initial(accounts, keys), es));
    PassphraseAcceptedIff(g, st.account, st.passphrase);
    KeysVerdictMeans(st.recipients);
    assert st.account in accounts && Accepted(g, st.account, st.passphrase);
    var k := st.recipients[0];
    assert k in st.recipients && k in keys && UsableToEncrypt(k);
  }
}
