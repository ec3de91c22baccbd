/**
 Page locks held by secret strings. Locking and unlocking act on whole pages and do not count:
 one unlock releases a page however many strings asked for it.
 */
module LockLedger {

  type Page = nat
  type Id = nat

  /** A string's characters and the pages they lie on. */
  datatype Buffer = Buffer(text: string, pages: set<Page>)
  {
    predicate Valid() {
      text == "" ==> pages == {}
    }
  }

  const EMPTY := Buffer("", {})

  datatype Secret = Secret(inner: Buffer, locked: bool)
  {
    predicate Valid() {
      inner.Valid() && (locked ==> inner.text != "")
    }
  }

  /** A new secret; `granted` is whether the system agrees to lock its pages. */
  function Created(s: Buffer, granted: bool): Secret {
    Secret(s, s.text != "" && granted)
  }

  function Claim(o: Secret): set<Page> {
    if o.locked then o.inner.pages else {}
  }

  function Unlocked(o: Secret): Secret {
    if o.inner.text != "" then o.(locked := false) else o
  }

  // ---------------------------------------------------------------- the strings

  /** The process's locked pages. */
  class Memory {
    var locked: set<Page>

    constructor ()
      ensures locked == {}
    {
      locked := {};
    }

    method Mlock(pages: set<Page>, granted: bool) returns (ok: bool)
      modifies this
      ensures ok == granted
      ensures locked == old(locked) + if granted then pages else {}
    {
      if granted { locked := locked + pages; }
      ok := granted;
    }

    method Munlock(pages: set<Page>)
      modifies this
      ensures locked == old(locked) - pages
    {
      locked := locked - pages;
    }
  }

  class SecureString {
    var inner: Buffer
    var locked: bool

    function Value(): Secret
      reads this
    {
      Secret(inner, locked)
    }

    constructor (s: Buffer, memory: Memory, granted: bool)
      requires s.Valid()
      modifies memory
      ensures Value() == Created(s, granted) && Value().Valid()
      ensures memory.locked == old(memory.locked) + Claim(Value())
    {
      var ok := false;
      if s.text != "" {
        ok := memory.Mlock(s.pages, granted);
      }
      inner, locked := s, ok;
    }

    /** A copy of the characters on other pages, locked in its own right. */
    method Clone(pages: set<Page>, memory: Memory, granted: bool) returns (copy: SecureString)
      requires Value().Valid() && Buffer(inner.text, pages).Valid()
      modifies memory
      ensures fresh(copy) && copy.Value() == Created(Buffer(inner.text, pages), granted) && copy.Value().Valid()
      ensures memory.locked == old(memory.locked) + Claim(copy.Value())
    {
      copy := new SecureString(Buffer(inner.text, pages), memory, granted);
    }

    method Unlock(memory: Memory)
      requires Value().Valid()
      modifies this, memory
      ensures Value() == Unlocked(old(Value())) && Value().Valid()
      ensures memory.locked == old(memory.locked) - Claim(old(Value()))
    {
      if locked && inner.text != "" {
        memory.Munlock(inner.pages);
        locked := false;
      }
    }

    method Drop(memory: Memory)
      requires Value().locked ==> inner.text != "" || inner.pages == {}
      modifies memory
      ensures memory.locked == old(memory.locked) - Claim(Value())
    {
      if locked && inner.text != "" {
        memory.Munlock(inner.pages);
      }
    }

    /** Hands the characters over; what is dropped is the empty string left behind. */
    method IntoString(memory: Memory) returns (s: Buffer)
      requires Value().Valid()
      modifies this, memory
      ensures s == old(inner)
      ensures memory.locked == old(memory.locked)
    {
      s := inner;
      inner := EMPTY;
      Drop(memory);
    }
  }

  // ---------------------------------------------------------------- runs

  /** All live secrets, the locked pages, and the secrets turned into plain strings so far. */
  datatype Ledger = Ledger(live: map<Id, Secret>, pages: set<Page>, consumed: seq<Secret>)

  datatype Event =
    | New(id: Id, buffer: Buffer, granted: bool)
    | Copy(id: Id, source: Id, copyPages: set<Page>, granted: bool)
    | Release(id: Id)
    | Discard(id: Id)
    | Consume(id: Id)

  predicate Enabled(l: Ledger, e: Event) {
    match e
    case New(id, buffer, _) => id !in l.live && buffer.Valid()
    case Copy(id, source, copyPages, _) =>
      id !in l.live && source in l.live && Buffer(l.live[source].inner.text, copyPages).Valid()
    case _ => e.id in l.live
  }

  /** The secret an event brings into being. */
  function Made(l: Ledger, e: Event): Secret
    requires Enabled(l, e) && (e.New? || e.Copy?)
  {
    match e
    case New(_, buffer, granted) => Created(buffer, granted)
    case Copy(_, source, copyPages, granted) => Created(Buffer(l.live[source].inner.text, copyPages), granted)
  }

  function Next(l: Ledger, e: Event): Ledger
    requires Enabled(l, e)
  {
    match e
    case New(id, _, _) => l.(live := l.live[id := Made(l, e)], pages := l.pages + Claim(Made(l, e)))
    case Copy(id, _, _, _) => l.(live := l.live[id := Made(l, e)], pages := l.pages + Claim(Made(l, e)))
    case Release(id) => l.(live := l.live[id := Unlocked(l.live[id])], pages := l.pages - Claim(l.live[id]))
    case Discard(id) => l.(live := l.live - {id}, pages := l.pages - Claim(l.live[id]))
    case Consume(id) => l.(live := l.live - {id}, consumed := l.consumed + [l.live[id]])
  }

  /** The pages of all locked live secrets. */
  function Held(live: map<Id, Secret>): set<Page> {
    set id, p | id in live && p in Claim(live[id]) :: p
  }

  /** The pages of strings that were locked when they were consumed. */
  function Leftover(consumed: seq<Secret>): set<Page> {
    set i, p | 0 <= i < |consumed| && p in Claim(consumed[i]) :: p
  }

  ghost predicate Possible(l: Ledger, events: seq<Event>)
    decreases |events|
  {
    events == [] || (Enabled(l, events[0]) && Possible(Next(l, events[0]), events[1..]))
  }

  function After(l: Ledger, events: seq<Event>): Ledger
    requires Possible(l, events)
    decreases |events|
  {
    if events == [] then l else After(Next(l, events[0]), events[1..])
  }

  const NOTHING := Ledger(map[], {}, [])

  ghost predicate AllValid(l: Ledger) {
    forall i :: i in l.live ==> l.live[i].Valid()
  }

  // ---------------------------------------------------------------- accounting

  lemma {:induction false} HeldAdded(live: map<Id, Secret>, id: Id, o: Secret)
    requires id !in live
    ensures Held(live[id := o]) == Held(live) + Claim(o)
  {
    var more := live[id := o];
    forall p ensures p in Held(more) <==> p in Held(live) + Claim(o) {
      if p in Held(live) {
        var i :| i in live && p in Claim(live[i]);
        assert p in Claim(more[i]);
      }
      if p in Claim(o) { assert p in Claim(more[id]); }
    }
  }

  lemma {:induction false} HeldRemoved(live: map<Id, Secret>, id: Id)
    requires id in live
    ensures Held(live) == Held(live - {id}) + Claim(live[id])
  {
    HeldAdded(live - {id}, id, live[id]);
    assert (live - {id})[id := live[id]] == live;
  }

  /** Unlocking a secret takes away its claim, as dropping it does. */
  lemma {:induction false} HeldUnlocked(live: map<Id, Secret>, id: Id)
    requires id in live && live[id].Valid()
    ensures Held(live[id := Unlocked(live[id])]) == Held(live - {id})
  {
    HeldAdded(live - {id}, id, Unlocked(live[id]));
    assert (live - {id})[id := Unlocked(live[id])] == live[id := Unlocked(live[id])];
  }

  lemma {:induction false} LeftoverSnoc(consumed: seq<Secret>, o: Secret)
    ensures Leftover(consumed + [o]) == Leftover(consumed) + Claim(o)
  {
    var more := consumed + [o];
    forall p ensures p in Leftover(more) <==> p in Leftover(consumed) + Claim(o) {
      if p in Leftover(consumed) {
        var i :| 0 <= i < |consumed| && p in Claim(consumed[i]);
        assert p in Claim(more[i]);
      }
      if p in Claim(o) { assert p in Claim(more[|consumed|]); }
    }
  }

  /** The locked pages are those of locked live secrets and the leftovers. */
  predicate Balanced(l: Ledger) {
    l.pages == Held(l.live) + Leftover(l.consumed)
  }

  /** An event that releases pages. */
  predicate Releases(e: Event) {
    e.Release? || e.Discard?
  }

  /** What other live secrets, and strings consumed while locked, still have on their pages. */
  function OthersClaims(l: Ledger, id: Id): set<Page> {
    Held(l.live - {id}) + Leftover(l.consumed)
  }

  /** A release keeps the accounts exactly when it takes no page another claim is on; all else always does. */
  lemma {:induction false} StepBalancedIff(l: Ledger, e: Event)
    requires Enabled(l, e) && AllValid(l) && Balanced(l)
    ensures Balanced(Next(l, e)) <==> (Releases(e) ==> Claim(l.live[e.id]) !! OthersClaims(l, e.id))
  {
    hide Held, Leftover;
    if e.New? || e.Copy? {
      HeldAdded(l.live, e.id, Made(l, e));
    } else {
      HeldRemoved(l.live, e.id);
      if e.Release? { HeldUnlocked(l.live, e.id); }
      if e.Consume? { LeftoverSnoc(l.consumed, l.live[e.id]); }
    }
  }

  ghost predicate BalancedThroughout(l: Ledger, events: seq<Event>)
    requires Possible(l, events)
    decreases |events|
  {
    Balanced(l) && (events == [] || BalancedThroughout(Next(l, events[0]), events[1..]))
  }

  /** No release in the run takes a page that another claim is on. */
  ghost predicate SeparateReleases(l: Ledger, events: seq<Event>)
    requires Possible(l, events)
    decreases |events|
  {
    events == [] ||
    ((Releases(events[0]) ==> Claim(l.live[events[0].id]) !! OthersClaims(l, events[0].id)) &&
     SeparateReleases(Next(l, events[0]), events[1..]))
  }

  lemma {:induction false} RunBalancedIff(l: Ledger, events: seq<Event>)
    requires Possible(l, events) && AllValid(l) && Balanced(l)
    ensures BalancedThroughout(l, events) <==> SeparateReleases(l, events)
    decreases |events|
  {
    hide Balanced, OthersClaims;
    if events != [] {
      StepBalancedIff(l, events[0]);
      if Balanced(Next(l, events[0])) { RunBalancedIff(Next(l, events[0]), events[1..]); }
    }
  }

  lemma {:induction false} BalancedAtEnd(l: Ledger, events: seq<Event>)
    requires Possible(l, events) && BalancedThroughout(l, events)
    ensures Balanced(After(l, events))
    decreases |events|
  {
    if events != [] { BalancedAtEnd(Next(l, events[0]), events[1..]); }
  }

  /**
   Over every run, shared and reused pages included, the locked pages stay exactly those of locked
   live secrets and of strings consumed while locked, if and only if no release takes a page that
   another of them is on. Then every secret that says it is locked has all its pages locked, and
   when all secrets are gone only the leftovers remain, if any.
   */
  lemma {:induction false} LedgerBalancesIff(events: seq<Event>)
    requires Possible(NOTHING, events)
    ensures BalancedThroughout(NOTHING, events) <==> SeparateReleases(NOTHING, events)
    ensures SeparateReleases(NOTHING, events) ==>
      var l := After(NOTHING, events);
      Balanced(l) && Honest(l) && (l.live == map[] ==> l.pages == Leftover(l.consumed))
  {
    assert Balanced(NOTHING);
    RunBalancedIff(NOTHING, events);
    if SeparateReleases(NOTHING, events) {
      var l := After(NOTHING, events);
      BalancedAtEnd(NOTHING, events);
      forall i | i in l.live && l.live[i].locked ensures l.live[i].inner.pages <= l.pages {
        HeldRemoved(l.live, i);
      }
    }
  }

  // ---------------------------------------------------------------- pages of their own

  /** New secrets are put on pages on which there is neither a live secret nor a leftover. */
  ghost predicate FreshPages(l: Ledger, e: Event)
    requires Enabled(l, e)
  {
    (e.New? || e.Copy?) ==>
      && (forall i :: i in l.live ==> l.live[i].inner.pages !! Made(l, e).inner.pages)
      && Made(l, e).inner.pages !! Leftover(l.consumed)
  }

  ghost predicate FreshThroughout(l: Ledger, events: seq<Event>)
    requires Possible(l, events)
    decreases |events|
  {
    events == [] || (FreshPages(l, events[0]) && FreshThroughout(Next(l, events[0]), events[1..]))
  }

  /** Every live secret lies on pages of its own, shared neither with another nor with a leftover. */
  ghost predicate Apart(l: Ledger) {
    && (forall i, j :: i in l.live && j in l.live && i != j ==> l.live[i].inner.pages !! l.live[j].inner.pages)
    && (forall i :: i in l.live ==> l.live[i].inner.pages !! Leftover(l.consumed))
  }

  lemma {:induction false} StepApart(l: Ledger, e: Event)
    requires Enabled(l, e) && FreshPages(l, e) && Apart(l)
    ensures Apart(Next(l, e))
  {
    if e.Consume? { LeftoverSnoc(l.consumed, l.live[e.id]); }
    hide Leftover;
  }

  lemma {:induction false} ApartSeparate(l: Ledger, id: Id)
    requires id in l.live && Apart(l)
    ensures Claim(l.live[id]) !! OthersClaims(l, id)
  {
  }

  /** Secrets on pages of their own never release each other's. */
  lemma {:induction false} FreshRunsSeparate(l: Ledger, events: seq<Event>)
    requires Possible(l, events) && FreshThroughout(l, events) && Apart(l)
    ensures SeparateReleases(l, events)
    decreases |events|
  {
    hide Apart, FreshPages, OthersClaims;
    if events != [] {
      if Releases(events[0]) { ApartSeparate(l, events[0].id); }
      StepApart(l, events[0]);
      FreshRunsSeparate(Next(l, events[0]), events[1..]);
    }
  }

  /** So on pages of their own the ledger balances after every run. */
  lemma {:induction false} LedgerBalances(events: seq<Event>)
    requires Possible(NOTHING, events) && FreshThroughout(NOTHING, events)
    ensures var l := After(NOTHING, events);
      && l.pages == Held(l.live) + Leftover(l.consumed)
      && (forall i :: i in l.live && l.live[i].locked ==> l.live[i].inner.pages <= l.pages)
      && (l.live == map[] && l.consumed == [] ==> l.pages == {})
  {
    FreshRunsSeparate(NOTHING, events);
    LedgerBalancesIff(events);
  }

  // ---------------------------------------------------------------- who can be believed

  /** Every live secret that says it is locked has all its pages locked. */
  ghost predicate Honest(l: Ledger) {
    forall i :: i in l.live && l.live[i].locked ==> l.live[i].inner.pages <= l.pages
  }

  lemma {:induction false} OthersStay(l: Ledger, id: Id)
    requires id in l.live && Honest(l)
    ensures (forall i ::
              i in l.live && i != id && l.live[i].locked ==> l.live[i].inner.pages <= l.pages - Claim(l.live[id]))
       <==> Claim(l.live[id]) !! Held(l.live - {id})
  {
    var rest, gone := l.live - {id}, Claim(l.live[id]);
    if gone !! Held(rest) {
      forall i | i in l.live && i != id && l.live[i].locked ensures l.live[i].inner.pages <= l.pages - gone {
        HeldRemoved(rest, i);
      }
    } else {
      var p :| p in gone && p in Held(rest);
      var i :| i in rest && p in Claim(rest[i]);
      assert i in l.live && i != id && l.live[i].locked && p in l.live[i].inner.pages;
    }
  }

  /** A release keeps every secret honest exactly when it takes no page another locked one is on. */
  lemma {:induction false} StepHonestIff(l: Ledger, e: Event)
    requires Enabled(l, e) && AllValid(l) && Honest(l)
    ensures Honest(Next(l, e)) <==> (Releases(e) ==> Claim(l.live[e.id]) !! Held(l.live - {e.id}))
  {
    hide Held;
    if Releases(e) {
      OthersStay(l, e.id);
      var next := Next(l, e);
      assert forall i :: i in l.live && i != e.id ==> i in next.live && next.live[i] == l.live[i];
      assert forall i :: i in next.live && next.live[i].locked ==> i in l.live && i != e.id;
    }
  }

  ghost predicate HonestThroughout(l: Ledger, events: seq<Event>)
    requires Possible(l, events)
    decreases |events|
  {
    Honest(l) && (events == [] || HonestThroughout(Next(l, events[0]), events[1..]))
  }

  /** No release in the run takes a page that another locked secret is on. */
  ghost predicate ConsiderateReleases(l: Ledger, events: seq<Event>)
    requires Possible(l, events)
    decreases |events|
  {
    events == [] ||
    ((Releases(events[0]) ==> Claim(l.live[events[0].id]) !! Held(l.live - {events[0].id})) &&
     ConsiderateReleases(Next(l, events[0]), events[1..]))
  }

  lemma {:induction false} RunHonestIff(l: Ledger, events: seq<Event>)
    requires Possible(l, events) && AllValid(l) && Honest(l)
    ensures HonestThroughout(l, events) <==> ConsiderateReleases(l, events)
    decreases |events|
  {
    hide Honest, Held;
    if events != [] {
      StepHonestIff(l, events[0]);
      if Honest(Next(l, events[0])) { RunHonestIff(Next(l, events[0]), events[1..]); }
    }
  }

  /**
   Over every run, whatever pages the strings lie on, secrets that say they are locked are so after
   each step if and only if no secret is dropped or unlocked while it shares a page with another
   locked one.
   */
  lemma {:induction false} HonestIff(events: seq<Event>)
    requires Possible(NOTHING, events)
    ensures HonestThroughout(NOTHING, events) <==> ConsiderateReleases(NOTHING, events)
  {
    RunHonestIff(NOTHING, events);
  }

  /** Two passphrases on one page, of which the first is dropped: the second is no longer locked but says so. */
  lemma {:induction false} SharedPageMisleads(a: string, b: string, page: Page)
    requires a != "" && b != ""
    ensures var events := [New(0, Buffer(a, {page}), true), New(1, Buffer(b, {page}), true), Discard(0)];
      && Possible(NOTHING, events) && !HonestThroughout(NOTHING, events)
      && var l := After(NOTHING, events);
         1 in l.live && l.live[1].locked && page in l.live[1].inner.pages && page !in l.pages
  {
    var e0, e1, e2 := New(0, Buffer(a, {page}), true), New(1, Buffer(b, {page}), true), Discard(0);
    var l1 := Next(NOTHING, e0);
    var l2 := Next(l1, e1);
    var l3 := Next(l2, e2);
    assert [e0, e1, e2][1..] == [e1, e2] && [e1, e2][1..] == [e2] && [e2][1..] == [];
    assert l2.pages == {page} && l3.pages == {} && 1 in l3.live && l3.live[1].locked;
    assert Possible(l2, [e2]) && Possible(l1, [e1, e2]);
    assert After(l2, [e2]) == After(l3, []) && After(l1, [e1, e2]) == After(l2, [e2]);
    assert !Honest(l3) && !HonestThroughout(l3, []);
    assert !HonestThroughout(l2, [e2]) && !HonestThroughout(l1, [e1, e2]);
  }
}
