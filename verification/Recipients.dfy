// The recipient menu: a cursor over the listed keys and the recipients chosen so far.
module Recipients {
  import opened GpgKeys

  const INT_MAX: int := 0x7fff_ffff
  const SIZE_RANGE: int := 0x1_0000_0000_0000_0000

  // ----- cursor arithmetic on int and size_t

  /** An int converted to size_t. */
  function ToSize(i: int): int {
    i % SIZE_RANGE
  }

  /** A size_t narrowed to int. */
  function ToInt(n: int): int {
    var low := n % 0x1_0000_0000;
    if low > INT_MAX then low - 0x1_0000_0000 else low
  }

  function Up(selected: int, size: nat): int {
    if selected > 0 then selected - 1 else ToInt(ToSize(size - 1))
  }

  function Down(selected: int, size: nat): int {
    if ToSize(selected) < ToSize(size - 1) then selected + 1 else 0
  }

  /** Over a non-empty list no conversion wraps: the arrows go round and round. */
  lemma ArrowsWrap(selected: int, size: nat)
    requires 0 <= selected < size <= INT_MAX
    ensures Up(selected, size) == if selected > 0 then selected - 1 else size - 1
    ensures Down(selected, size) == if selected + 1 < size then selected + 1 else 0
  {}

  // ----- the menu

  datatype Event = ArrowUp | ArrowDown | Take | Untake | Enter | Other

  datatype Menu = Menu(keys: seq<Key>, recipients: seq<Key>, selected: int, warned: bool)

  /** Position of the first recipient with a fingerprint, or the length. */
  function Find(recipients: seq<Key>, fingerprint: string): (i: nat)
    ensures i <= |recipients|
  {
    if recipients == [] || (recipients[0].Key? && recipients[0].fingerprint == fingerprint) then 0
    else 1 + Find(recipients[1..], fingerprint)
  }

  predicate InRange(m: Menu) {
    |m.keys| > 0 && 0 <= m.selected < |m.keys|
  }

  function Step(m: Menu, e: Event): Menu {
    match e
    case ArrowUp => m.(selected := Up(m.selected, |m.keys|))
    case ArrowDown => m.(selected := Down(m.selected, |m.keys|))
    case Take =>
      if |m.recipients| <= |m.keys| && InRange(m) && m.keys[m.selected].Key? then
        if Find(m.recipients, m.keys[m.selected].fingerprint) == |m.recipients| then
          m.(recipients := m.recipients + [m.keys[m.selected]])
        else m
      else m
    case Untake =>
      if |m.recipients| <= |m.keys| && |m.recipients| > 0 && InRange(m) && m.keys[m.selected].Key? then
        var i := Find(m.recipients, m.keys[m.selected].fingerprint);
        if i < |m.recipients| then m.(recipients := m.recipients[..i] + m.recipients[i + 1..]) else m
      else m
    case Enter => m.(warned := |m.recipients| == 0)
    case Other => m
  }

  /** getRecipientsKeys */
  function Chosen(m: Menu): seq<Key> {
    if |m.keys| > 0 && |m.recipients| <= |m.keys| then m.recipients else []
  }

  function Run(keys: seq<Key>, es: seq<Event>): Menu {
    if es == [] then Menu(keys, [], 0, false) else Step(Run(keys, es[..|es| - 1]), es[|es| - 1])
  }

  // ----- what the events ask for, without looking at the menu

  ghost function Downs(es: seq<Event>): int {
    if es == [] then 0
    else Downs(es[..|es| - 1]) + match es[|es| - 1] { case ArrowDown => 1 case ArrowUp => -1 case _ => 0 }
  }

  /** The last take or untake at a key with this fingerprint was a take. */
  ghost predicate LastTaken(keys: seq<Key>, es: seq<Event>, fingerprint: string)
    requires Listed(keys)
  {
    if es == [] then false
    else
      var front, e := es[..|es| - 1], es[|es| - 1];
      if (e.Take? || e.Untake?) && keys[Downs(front) % |keys|].fingerprint == fingerprint then e.Take?
      else LastTaken(keys, front, fingerprint)
  }

  ghost predicate Listed(keys: seq<Key>) {
    0 < |keys| <= INT_MAX && forall k <- keys :: k.Key?
  }

  ghost predicate Has(recipients: seq<Key>, fingerprint: string) {
    exists r <- recipients :: r.Key? && r.fingerprint == fingerprint
  }

  ghost predicate Distinct(recipients: seq<Key>) {
    && (forall r <- recipients :: r.Key?)
    && forall i, j :: 0 <= i < j < |recipients| ==> recipients[i].fingerprint != recipients[j].fingerprint
  }

  lemma {:induction false} FindMeans(recipients: seq<Key>, f: string)
    ensures var i := Find(recipients, f);
            if i < |recipients| then recipients[i].Key? && recipients[i].fingerprint == f else !Has(recipients, f)
  {
    if recipients != [] {
      FindMeans(recipients[1..], f);
      assert forall r <- recipients :: r == recipients[0] || r in recipients[1..];
    }
  }

  // ----- pigeonhole

  ghost function Fingerprints(ks: seq<Key>): set<string>
    requires forall k <- ks :: k.Key?
  {
    set k <- ks :: k.fingerprint
  }

  lemma {:induction false} FingerprintsAtMost(ks: seq<Key>)
    requires forall k <- ks :: k.Key?
    ensures |Fingerprints(ks)| <= |ks|
    ensures Distinct(ks) ==> |Fingerprints(ks)| == |ks|
  {
    if ks != [] {
      var n := |ks| - 1;
      FingerprintsAtMost(ks[..n]);
      assert ks == ks[..n] + [ks[n]];
      assert Fingerprints(ks) == Fingerprints(ks[..n]) + {ks[n].fingerprint};
      if Distinct(ks) {
        assert ks[n].fingerprint !in Fingerprints(ks[..n]);
      }
    }
  }

  lemma {:induction false} SubsetSize(a: set<string>, b: set<string>)
    requires a <= b
    ensures |a| <= |b|
  {
    assert b == a + (b - a);
  }

  /** Distinct fingerprints drawn from the keys are no more than the keys. */
  lemma Pigeonhole(recipients: seq<Key>, keys: seq<Key>)
    requires Distinct(recipients) && (forall k <- keys :: k.Key?) && forall r <- recipients :: r in keys
    ensures |recipients| <= |keys|
  {
    FingerprintsAtMost(recipients);
    FingerprintsAtMost(keys);
    SubsetSize(Fingerprints(recipients), Fingerprints(keys));
  }

  // ----- the menu refines a set

  /** The menu agrees with what the events asked for. */
  ghost predicate Refines(m: Menu, keys: seq<Key>, es: seq<Event>)
    requires Listed(keys)
  {
    && m.keys == keys && m.selected == Downs(es) % |keys|
    && Distinct(m.recipients) && (forall r <- m.recipients :: r in keys)
    && forall f :: Has(m.recipients, f) <==> LastTaken(keys, es, f)
  }

  lemma TakeAdds(recipients: seq<Key>, k: Key)
    requires Distinct(recipients) && k.Key? && Find(recipients, k.fingerprint) == |recipients|
    ensures Distinct(recipients + [k])
    ensures forall f :: Has(recipients + [k], f) <==> Has(recipients, f) || f == k.fingerprint
  {
    FindMeans(recipients, k.fingerprint);
    forall i | 0 <= i < |recipients| ensures recipients[i].fingerprint != k.fingerprint { assert recipients[i] in recipients; }
    assert forall r <- recipients :: r in recipients + [k];
    assert k in recipients + [k];
  }

  lemma UntakeRemoves(recipients: seq<Key>, i: nat)
    requires Distinct(recipients) && i < |recipients|
    ensures var rest := recipients[..i] + recipients[i + 1..];
            && Distinct(rest) && (forall r <- rest :: r in recipients)
            && forall f :: Has(rest, f) <==> Has(recipients, f) && f != recipients[i].fingerprint
  {}

  /** The recipients are distinct and drawn from the keys. */
  ghost predicate Drawn(m: Menu) {
    Distinct(m.recipients) && forall r <- m.recipients :: r in m.keys
  }

  /** A take adds the fingerprint under the cursor. */
  lemma TakeStep(m: Menu, k: Key)
    requires InRange(m) && k == m.keys[m.selected] && k.Key? && Drawn(m) && |m.recipients| <= |m.keys|
    ensures var n := Step(m, Take); n == m.(recipients := n.recipients) && Drawn(n)
    ensures forall f :: Has(Step(m, Take).recipients, f) <==> Has(m.recipients, f) || f == k.fingerprint
  {
    var i := Find(m.recipients, k.fingerprint);
    FindMeans(m.recipients, k.fingerprint);
    if i == |m.recipients| { TakeAdds(m.recipients, k); } else { assert m.recipients[i] in m.recipients; }
  }

  /** An untake removes it. */
  lemma UntakeStep(m: Menu, k: Key)
    requires InRange(m) && k == m.keys[m.selected] && k.Key? && Drawn(m) && |m.recipients| <= |m.keys|
    ensures var n := Step(m, Untake); n == m.(recipients := n.recipients) && Drawn(n)
    ensures forall f :: Has(Step(m, Untake).recipients, f) <==> Has(m.recipients, f) && f != k.fingerprint
  {
    var i := Find(m.recipients, k.fingerprint);
    FindMeans(m.recipients, k.fingerprint);
    if i < |m.recipients| { UntakeRemoves(m.recipients, i); }
  }

  /** What one more event changes about the last take or untake of a fingerprint. */
  lemma LastTakenStep(keys: seq<Key>, es: seq<Event>, e: Event, selected: int, f: string)
    requires Listed(keys) && selected == Downs(es) % |keys|
    ensures LastTaken(keys, es + [e], f) <==>
              if (e.Take? || e.Untake?) && keys[selected].fingerprint == f then e.Take? else LastTaken(keys, es, f)
  {
    assert (es + [e])[..|es + [e]| - 1] == es;
  }

  /** The recipients after an event, given what they are before it. */
  lemma RecipientsStep(m: Menu, e: Event)
    requires InRange(m) && m.keys[m.selected].Key? && Drawn(m) && |m.recipients| <= |m.keys|
    ensures Step(m, e).keys == m.keys && Drawn(Step(m, e))
    ensures forall f :: Has(Step(m, e).recipients, f) <==>
              if (e.Take? || e.Untake?) && m.keys[m.selected].fingerprint == f then e.Take? else Has(m.recipients, f)
  {
    match e
    case Take => TakeStep(m, m.keys[m.selected]);
    case Untake => UntakeStep(m, m.keys[m.selected]);
    case _ =>
  }

  lemma RefinesStep(m: Menu, keys: seq<Key>, es: seq<Event>, e: Event)
    requires Listed(keys) && Refines(m, keys, es)
    ensures Refines(Step(m, e), keys, es + [e])
  {
    Pigeonhole(m.recipients, keys);
    CursorStep(m.selected, es, e, |keys|);
    assert keys[m.selected] in keys;
    RecipientsStep(m, e);
    SelectedStep(m, e);
    forall f ensures Has(Step(m, e).recipients, f) <==> LastTaken(keys, es + [e], f) {
      LastTakenStep(keys, es, e, m.selected, f);
    }
  }

  lemma SelectedStep(m: Menu, e: Event)
    ensures Step(m, e).selected
         == match e { case ArrowUp => Up(m.selected, |m.keys|) case ArrowDown => Down(m.selected, |m.keys|) case _ => m.selected }
  {}

  /** The cursor follows downs minus ups. */
  lemma CursorStep(selected: int, es: seq<Event>, e: Event, size: nat)
    requires 0 < size <= INT_MAX && selected == Downs(es) % size
    ensures Downs(es + [e]) % size == match e { case ArrowUp => Up(selected, size) case ArrowDown => Down(selected, size) case _ => selected }
  {
    assert (es + [e])[..|es + [e]| - 1] == es;
    ArrowsWrap(selected, size);
    ModStep(Downs(es), size);
  }

  lemma LargeMultiple(k: int, n: int)
    requires n > 0 && k != 0
    ensures k * n >= n || k * n <= -n
  {}

  lemma ModIs(a: int, q: int, r: int, n: nat)
    requires n > 0 && 0 <= r < n && a == q * n + r
    ensures a % n == r
  {
    assert a == (a / n) * n + a % n;
    assert (q - a / n) * n == a % n - r;
    if q != a / n { LargeMultiple(q - a / n, n); }
  }

  /** One step of a counter, seen modulo n. */
  lemma ModStep(a: int, n: nat)
    requires n > 0
    ensures (a + 1) % n == if a % n + 1 < n then a % n + 1 else 0
    ensures (a - 1) % n == if a % n > 0 then a % n - 1 else n - 1
  {
    var q, r := a / n, a % n;
    assert a == q * n + r;
    if r + 1 < n { ModIs(a + 1, q, r + 1, n); } else { ModNext(q, n); ModIs(a + 1, q + 1, 0, n); }
    if r > 0 { ModIs(a - 1, q, r - 1, n); } else { ModNext(q - 1, n); ModIs(a - 1, q - 1, n - 1, n); }
  }

  lemma ModNext(q: int, n: nat)
    ensures (q + 1) * n == q * n + n
  {}

  /** After every event sequence over a non-empty key list: the cursor is downs
      minus ups modulo the key count, the recipients are distinct listed keys, and
      they are exactly those whose last take or untake was a take. */
  lemma {:induction false} RunRefines(keys: seq<Key>, es: seq<Event>)
    requires Listed(keys)
    ensures Refines(Run(keys, es), keys, es)
  {
    if es != [] {
      var front := es[..|es| - 1];
      RunRefines(keys, front);
      RefinesStep(Run(keys, front), keys, front, es[|es| - 1]);
      assert front + [es[|es| - 1]] == es;
    }
  }

  /** So the size guards never drop a selection: confirming yields all recipients. */
  lemma NothingDropped(keys: seq<Key>, es: seq<Event>)
    requires Listed(keys)
    ensures var m := Run(keys, es); |m.recipients| <= |keys| && Chosen(m) == m.recipients
    ensures forall f :: Has(Chosen(Run(keys, es)), f) <==> LastTaken(keys, es, f)
  {
    RunRefines(keys, es);
    Pigeonhole(Run(keys, es).recipients, keys);
  }

  lemma RunMore(keys: seq<Key>, es: seq<Event>, e: Event)
    ensures Run(keys, es + [e]) == Step(Run(keys, es), e)
  {
    assert (es + [e])[..|es + [e]| - 1] == es;
  }

  lemma WarnedStep(m: Menu, e: Event)
    ensures Step(m, e).warned == if e.Enter? then m.recipients == [] else m.warned
  {}

  /** The fingerprints whose last take or untake was a take. */
  ghost function Taken(keys: seq<Key>, es: seq<Event>): iset<string>
    requires Listed(keys)
  {
    iset f: string | LastTaken(keys, es, f)
  }

  lemma TakenAreHad(keys: seq<Key>, es: seq<Event>)
    requires Listed(keys)
    ensures Distinct(Run(keys, es).recipients) && forall f :: Has(Run(keys, es).recipients, f) <==> f in Taken(keys, es)
  {
    RunRefines(keys, es);
  }

  lemma NoneMeans(recipients: seq<Key>, taken: iset<string>)
    requires Distinct(recipients) && forall f :: Has(recipients, f) <==> f in taken
    ensures recipients == [] <==> taken == iset{}
  {
    if recipients != [] {
      assert recipients[0] in recipients && Has(recipients, recipients[0].fingerprint);
    }
  }

  /** The warning is shown if and only if the last confirmation found no recipient: no
      key whose last take or untake was a take. */
  lemma WarnedIff(keys: seq<Key>, es: seq<Event>, e: Event)
    requires Listed(keys)
    ensures Run(keys, es + [e]).warned <==> if e.Enter? then Taken(keys, es) == iset{} else Run(keys, es).warned
  {
    hide Step, Taken, Has, Distinct;
    TakenAreHad(keys, es);
    NoneMeans(Run(keys, es).recipients, Taken(keys, es));
    RunMore(keys, es, e);
    WarnedStep(Run(keys, es), e);
  }

  // ----- the menu as it runs

  class RecipientMenu {
    const keys: seq<Key>
    var recipients: seq<Key>
    var selected: int
    var warned: bool

    function Abs(): Menu
      reads this
    {
      Menu(keys, recipients, selected, warned)
    }

    constructor (keys: seq<Key>)
      ensures this.keys == keys && Abs() == Run(keys, [])
    {
      this.keys, recipients, selected, warned := keys, [], 0, false;
    }

    method FindRecipient(fingerprint: string) returns (i: nat)
      ensures i == Find(recipients, fingerprint)
    {
      i := 0;
      while i < |recipients| && !(recipients[i].Key? && recipients[i].fingerprint == fingerprint)
        invariant i <= |recipients|
        invariant Find(recipients, fingerprint) == i + Find(recipients[i..], fingerprint)
      {
        assert recipients[i..][1..] == recipients[i + 1..];
        i := i + 1;
      }
    }

    method OnEvent(e: Event)
      modifies this
      ensures Abs() == Step(old(Abs()), e)
    {
      match e {
        case ArrowUp =>
          if selected > 0 { selected := selected - 1; } else { selected := ToInt(ToSize(|keys| - 1)); }
        case ArrowDown =>
          if ToSize(selected) < ToSize(|keys| - 1) { selected := selected + 1; } else { selected := 0; }
        case Take =>
          if |recipients| <= |keys| && |keys| > 0 && selected >= 0 && selected < |keys| && keys[selected].Key? {
            var i := FindRecipient(keys[selected].fingerprint);
            if i == |recipients| { recipients := recipients + [keys[selected]]; }
          }
        case Untake =>
          if |recipients| <= |keys| && |recipients| > 0 && |keys| > 0 && selected >= 0 && selected < |keys| && keys[selected].Key? {
            var i := FindRecipient(keys[selected].fingerprint);
            if i < |recipients| { recipients := recipients[..i] + recipients[i + 1..]; }
          }
        case Enter => warned := !(|recipients| > 0);
        case Other =>
      }
    }

    /** What the menu draws as selected: with the cursor in range, what was chosen. */
    method IsRecipientKeySelected(key: Key) returns (b: bool)
      requires key.Key?
      ensures b <==> |recipients| <= |keys| && 0 <= selected < |keys| && Has(recipients, key.fingerprint)
    {
      FindMeans(recipients, key.fingerprint);
      if |recipients| <= |keys| && |recipients| > 0 && |keys| > 0 && selected >= 0 && selected < |keys| {
        var i := FindRecipient(key.fingerprint);
        if i < |recipients| {
          assert recipients[i] in recipients;
          return true;
        }
      }
      return false;
    }
  }
}
