/**
 Buying over a network that loses, delays and repeats: the page keeps one key per item until the attempt is
 answered, the server charges a key once. A run is any sequence of steps; an impossible step does nothing.
 */
module KeyRings {
  import opened Wrappers
  import opened Ledger
  import Laws = LedgerLaws

  function Begun(keys: map<string, string>, item: string, mint: string): map<string, string> {
    if item in keys then keys else keys[item := mint]
  }

  class KeyRing {
    var keys: map<string, string>

    constructor ()
      ensures keys == map[]
    {
      keys := map[];
    }

    /** The key of the outstanding attempt, minting one only if there is none. */
    method Begin(item: string, mint: string) returns (key: string)
      modifies this
      ensures keys == Begun(old(keys), item, mint) && key == keys[item]
    {
      if item !in keys {
        keys := keys[item := mint];
      }
      return keys[item];
    }

    method Settle(item: string)
      modifies this
      ensures keys == old(keys) - {item}
    {
      keys := keys - {item};
    }
  }

  datatype Offer = Offer(price: nat, max: nat)

  datatype Reply = Reply(item: string, key: string, ok: bool)

  /**
   One buyer's page and the books behind it. `wire` and `replies` hold everything ever sent, deliverable any
   number of times or never. `attempts` names the item each key was minted for; `charges` is every charge made.
   */
  datatype System = System(
    account: string, catalog: map<string, Offer>, books: Books, keys: map<string, string>, busy: set<string>,
    wire: set<(string, string)>, replies: set<Reply>,
    attempts: map<string, string>, settled: set<string>, charges: seq<string>, credits: nat)

  datatype Step =
    | Click(item: string, mint: string)
    | Deliver(item: string, key: string, at: int)
    | Answer(item: string, ok: bool)
    | TimeOut(item: string)
    | Credit(amount: nat)

  /** What the service asks of the books for one item. */
  function Purchase(s: System, item: string, key: string, at: int): Entry
    requires item in s.catalog
  {
    Entry(s.account, key, item, 1, 0 - s.catalog[item].price, s.catalog[item].max, at)
  }

  /** A freshly minted key was never seen before, here or on the server. */
  predicate Unused(s: System, mint: string) {
    mint !in s.attempts && (s.account, mint) !in s.books.ledger
  }

  function Next(s: System, step: Step): System {
    match step
    case Click(item, mint) =>
      if item in s.busy || (item !in s.keys && !Unused(s, mint)) then s
      else
        var keys := Begun(s.keys, item, mint);
        s.(keys := keys, busy := s.busy + {item}, wire := s.wire + {(item, keys[item])}, attempts := s.attempts[keys[item] := item])
    case Deliver(item, key, at) =>
      if (item, key) !in s.wire then s
      else if item !in s.catalog then s.(replies := s.replies + {Reply(item, key, false)})
      else
        var (books, answer) := MemoryApply(s.books, Purchase(s, item, key, at));
        s.(books := books, replies := s.replies + {Reply(item, key, answer.Ok?)},
           charges := if answer.Ok? && !answer.value.replay then s.charges + [key] else s.charges)
    case Answer(item, ok) =>
      if item !in s.busy || item !in s.keys || Reply(item, s.keys[item], ok) !in s.replies then s
      else if ok then s.(keys := s.keys - {item}, busy := s.busy - {item}, settled := s.settled + {s.keys[item]})
      else s.(busy := s.busy - {item})
    case TimeOut(item) => s.(busy := s.busy - {item})
    case Credit(amount) =>
      if s.account !in s.books.profiles then s
      else s.(books := s.books.(profiles := s.books.profiles[s.account := Paid(s.books.profiles[s.account], amount)]),
              credits := s.credits + amount)
  }

  function Paid(p: Profile, amount: int): Profile {
    p.(currency := p.currency + amount)
  }

  function Run(s: System, steps: seq<Step>): System {
    if steps == [] then s else Next(Run(s, steps[..|steps| - 1]), steps[|steps| - 1])
  }

  function Price(s: System, key: string): nat {
    if key in s.attempts && s.attempts[key] in s.catalog then s.catalog[s.attempts[key]].price else 0
  }

  function Spent(s: System, charges: seq<string>): nat {
    if charges == [] then 0 else Spent(s, charges[..|charges| - 1]) + Price(s, charges[|charges| - 1])
  }

  function Wallet(s: System): int
    requires s.account in s.books.profiles
  {
    s.books.profiles[s.account].currency
  }

  /** The page has just been opened. */
  predicate Opened(s: System) {
    && s.account in s.books.profiles && Wallet(s) >= 0 && s.keys == map[] && s.busy == {} && s.wire == {} && s.replies == {}
    && s.attempts == map[] && s.settled == {} && s.charges == [] && s.credits == 0
  }

  /** A key is in the ring until it settles, and everything on the wire asks with a key minted for its item. */
  ghost predicate RingHolds(s: System) {
    && (forall i :: i in s.keys ==> s.keys[i] in s.attempts && s.attempts[s.keys[i]] == i && s.keys[i] !in s.settled)
    && (forall k :: k in s.attempts ==> k in s.settled || (s.attempts[k] in s.keys && s.keys[s.attempts[k]] == k))
    && (forall m :: m in s.wire ==> m.1 in s.attempts && s.attempts[m.1] == m.0)
  }

  /** The page's keys in the ledger are the charges, each once; only a charge was ever answered with success. */
  ghost predicate ChargesHold(s: System) {
    && (forall k :: k in s.attempts ==> (k in s.charges <==> (s.account, k) in s.books.ledger))
    && (forall k :: k in s.charges ==> k in s.attempts)
    && (forall i, j :: 0 <= i < j < |s.charges| ==> s.charges[i] != s.charges[j])
    && (forall r :: r in s.replies && r.ok ==> r.key in s.charges)
    && (forall k :: k in s.settled ==> k in s.charges)
  }

  ghost predicate Consistent(s: System, start: nat) {
    && RingHolds(s) && ChargesHold(s)
    && s.account in s.books.profiles && 0 <= Wallet(s) == start + s.credits - Spent(s, s.charges)
  }

  lemma {:induction false} SpentStays(s: System, t: System, charges: seq<string>)
    requires t.catalog == s.catalog && forall k :: k in charges ==> k in s.attempts && k in t.attempts && t.attempts[k] == s.attempts[k]
    ensures Spent(t, charges) == Spent(s, charges)
  {
    if charges != [] {
      SpentStays(s, t, charges[..|charges| - 1]);
    }
  }

  lemma ClickKeeps(s: System, item: string, mint: string, start: nat)
    requires Consistent(s, start)
    ensures Consistent(Next(s, Click(item, mint)), start)
  {
    ClickKeepsTheRing(s, item, mint);
    ClickKeepsTheCharges(s, item, mint);
    SpentStays(s, Next(s, Click(item, mint)), s.charges);
    hide Spent, RingHolds, ChargesHold;
  }

  lemma ClickKeepsTheRing(s: System, item: string, mint: string)
    requires RingHolds(s) && ChargesHold(s)
    ensures RingHolds(Next(s, Click(item, mint)))
  {
  }

  lemma ClickKeepsTheCharges(s: System, item: string, mint: string)
    requires RingHolds(s) && ChargesHold(s)
    ensures ChargesHold(Next(s, Click(item, mint)))
  {
  }

  /** What the buyer sees of the books when a request arrives: nothing, a refusal or a replay, or one charge. */
  lemma PurchaseOutcome(s: System, e: Entry)
    requires e.account == s.account && s.account in s.books.profiles
    ensures var (books, answer) := MemoryApply(s.books, e);
      && s.account in books.profiles
      && (answer.Err? || answer.value.replay ==> books == s.books)
      && (answer.Ok? && answer.value.replay ==> (s.account, e.key) in s.books.ledger)
      && (answer.Ok? && !answer.value.replay ==>
           && (s.account, e.key) !in s.books.ledger && books.ledger == s.books.ledger + {(s.account, e.key)}
           && books.profiles[s.account].currency == Wallet(s) + e.delta >= 0)
  {
  }

  lemma DeliverKeeps(s: System, item: string, key: string, at: int, start: nat)
    requires Consistent(s, start)
    ensures Consistent(Next(s, Deliver(item, key, at)), start)
  {
    if (item, key) in s.wire && item in s.catalog {
      PurchaseOutcome(s, Purchase(s, item, key, at));
      AnsweredKeeps(s, item, key, Purchase(s, item, key, at), start);
    } else {
      hide Spent;
      SpentStays(s, Next(s, Deliver(item, key, at)), s.charges);
    }
  }

  lemma AnsweredKeeps(s: System, item: string, key: string, e: Entry, start: nat)
    requires Consistent(s, start) && (item, key) in s.wire && item in s.catalog
    requires e.account == s.account && e.key == key && e.delta == 0 - Price(s, key)
    ensures var (books, answer) := MemoryApply(s.books, e);
      Consistent(s.(books := books, replies := s.replies + {Reply(item, key, answer.Ok?)},
                    charges := if answer.Ok? && !answer.value.replay then s.charges + [key] else s.charges), start)
  {
    hide MemoryApply, Spent;
    PurchaseOutcome(s, e);
    var (books, answer) := MemoryApply(s.books, e);
    var t := s.(books := books, replies := s.replies + {Reply(item, key, answer.Ok?)});
    if answer.Ok? && !answer.value.replay {
      OneMoreCharge(s, t, key);
    } else {
      SpentStays(s, t, s.charges);
    }
  }

  lemma OneMoreCharge(s: System, t: System, key: string)
    requires t.catalog == s.catalog && t.attempts == s.attempts && key in s.attempts && forall k :: k in s.charges ==> k in s.attempts
    ensures Spent(t.(charges := s.charges + [key]), s.charges + [key]) == Spent(s, s.charges) + Price(s, key)
    ensures forall k :: k in s.charges + [key] <==> k in s.charges || k == key
  {
    var u := t.(charges := s.charges + [key]);
    assert (s.charges + [key])[..|s.charges|] == s.charges;
    SpentStays(s, u, s.charges);
  }

  lemma CreditKeeps(s: System, amount: nat, start: nat)
    requires Consistent(s, start)
    ensures Consistent(Next(s, Credit(amount)), start)
  {
    hide Spent;
    SpentStays(s, Next(s, Credit(amount)), s.charges);
  }

  lemma AnswerKeeps(s: System, step: Step, start: nat)
    requires Consistent(s, start) && (step.Answer? || step.TimeOut?)
    ensures Consistent(Next(s, step), start)
  {
    hide Spent;
    SpentStays(s, Next(s, step), s.charges);
  }

  lemma {:induction false} RunKeeps(s: System, steps: seq<Step>)
    requires Opened(s)
    ensures Consistent(Run(s, steps), Wallet(s))
  {
    if steps != [] {
      var t, step := Run(s, steps[..|steps| - 1]), steps[|steps| - 1];
      RunKeeps(s, steps[..|steps| - 1]);
      match step
      case Click(item, mint) => ClickKeeps(t, item, mint, Wallet(s));
      case Deliver(item, key, at) => DeliverKeeps(t, item, key, at, Wallet(s));
      case Credit(amount) => CreditKeeps(t, amount, Wallet(s));
      case _ => AnswerKeeps(t, step, Wallet(s));
    }
  }

  function Count(keys: seq<string>, key: string): nat {
    multiset(keys)[key]
  }

  /**
   Whatever the network does: an attempt is charged at most once, exactly once if it settled, and a charge that
   has not settled belongs to the attempt still outstanding for its item. The wallet has paid for exactly that.
   */
  lemma ChargedOnce(s: System, steps: seq<Step>, key: string)
    requires Opened(s)
    ensures var t := Run(s, steps);
      && Count(t.charges, key) <= 1
      && (key in t.settled ==> Count(t.charges, key) == 1)
      && (Count(t.charges, key) == 1 ==>
           key in t.attempts && (key in t.settled || (t.attempts[key] in t.keys && t.keys[t.attempts[key]] == key)))
      && t.account in t.books.profiles && 0 <= Wallet(t) == Wallet(s) + t.credits - Spent(t, t.charges)
  {
    RunKeeps(s, steps);
    OnceEach(Run(s, steps).charges, key);
  }

  lemma {:induction false} OnceEach(keys: seq<string>, key: string)
    requires forall i, j :: 0 <= i < j < |keys| ==> keys[i] != keys[j]
    ensures Count(keys, key) == if key in keys then 1 else 0
  {
    if keys != [] {
      var n := |keys| - 1;
      assert keys == keys[..n] + [keys[n]];
      OnceEach(keys[..n], key);
    }
  }

  /** A lost answer is not a lost purchase: the next click asks with the same key, is answered as a replay and settles. */
  lemma RetrySettles(s: System, item: string, mint: string, at: int, start: nat)
    requires Consistent(s, start)
    requires item in s.catalog && item in s.keys && s.keys[item] in s.charges && item !in s.busy
    ensures var t := Run(s, [Click(item, mint), Deliver(item, s.keys[item], at), Answer(item, true)]);
      t.books == s.books && t.charges == s.charges && s.keys[item] in t.settled && item !in t.keys
  {
    var steps := [Click(item, mint), Deliver(item, s.keys[item], at), Answer(item, true)];
    var a := Next(s, steps[0]);
    var b := Next(a, steps[1]);
    assert steps[..2][..1] == [steps[0]] && steps[..2] == [steps[0], steps[1]];
    assert Run(s, steps[..1]) == a by {
      assert steps[..1][..0] == [];
      assert Run(s, []) == s;
    }
    assert Run(s, steps[..2]) == b;
  }

  // ---- what was bought ----

  /** How many of these charges were for the item. */
  function Bought(s: System, charges: seq<string>, item: string): nat {
    if charges == [] then 0
    else
      var key := charges[|charges| - 1];
      Bought(s, charges[..|charges| - 1], item) + if key in s.attempts && s.attempts[key] == item then 1 else 0
  }

  lemma {:induction false} BoughtStays(s: System, t: System, charges: seq<string>, item: string)
    requires forall k :: k in charges ==> k in s.attempts && k in t.attempts && t.attempts[k] == s.attempts[k]
    ensures Bought(t, charges, item) == Bought(s, charges, item)
  {
    if charges != [] {
      BoughtStays(s, t, charges[..|charges| - 1], item);
    }
  }

  lemma StepBuys(s: System, step: Step, start: nat, item: string)
    requires Consistent(s, start) && item != ""
    ensures var t := Next(s, step);
      && (forall k :: k in s.charges ==> k in t.attempts && t.attempts[k] == s.attempts[k]) && t.account == s.account
      && Laws.Quantity(t.books, t.account, item) - Laws.Quantity(s.books, s.account, item)
         == Bought(t, t.charges, item) - Bought(t, s.charges, item)
  {
    hide MemoryApply, Spent, Bought;
    if step.Deliver? && (step.item, step.key) in s.wire && step.item in s.catalog {
      var e := Purchase(s, step.item, step.key, step.at);
      Laws.EntryMoves(s.books, e, false);
      var t := Next(s, step);
      if t.charges != s.charges {
        OneMoreBought(t, s.charges, step.key, item);
      }
    }
  }

  lemma OneMoreBought(s: System, charges: seq<string>, key: string, item: string)
    ensures Bought(s, charges + [key], item)
         == Bought(s, charges, item) + if key in s.attempts && s.attempts[key] == item then 1 else 0
  {
    assert (charges + [key])[..|charges|] == charges;
  }

  /** And the buyer has what was paid for: of every item, one more for each charge of an attempt to buy it. */
  lemma {:induction false} ChargesAreItems(s: System, steps: seq<Step>, item: string)
    requires Opened(s) && item != ""
    ensures var t := Run(s, steps);
      t.account == s.account
      && Laws.Quantity(t.books, t.account, item) == Laws.Quantity(s.books, s.account, item) + Bought(t, t.charges, item)
  {
    OpenedWallet(s);
    hide Next, Consistent, Opened;
    if steps == [] {
      NothingBought(s, item);
    } else {
      var before, step := Run(s, steps[..|steps| - 1]), steps[|steps| - 1];
      ChargesAreItems(s, steps[..|steps| - 1], item);
      RunKeeps(s, steps[..|steps| - 1]);
      StepBuys(before, step, Wallet(s), item);
      AttemptsOfCharges(before, Wallet(s));
      BoughtStays(before, Next(before, step), before.charges, item);
    }
  }

  lemma OpenedWallet(s: System)
    requires Opened(s)
    ensures s.account in s.books.profiles && Wallet(s) >= 0
  {
  }

  lemma NothingBought(s: System, item: string)
    requires Opened(s)
    ensures s.charges == [] && Bought(s, s.charges, item) == 0
  {
  }

  lemma AttemptsOfCharges(s: System, start: nat)
    requires Consistent(s, start)
    ensures forall k :: k in s.charges ==> k in s.attempts
  {
  }
}
