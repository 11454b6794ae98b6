/**
 The platform's books: wallets, inventories, the ledger of idempotency keys and the record of matches, in
 the in-memory store and in the transactions of the database. The two are compared outcome for outcome.
 */
module Ledger {
  import opened Wrappers

  const RATING_FLOOR := 100

  datatype Profile = Profile(rating: int, matches: nat, wins: nat, kills: int, currency: int)

  datatype Stack = Stack(qty: int, acquiredAt: int)

  /** What is asked of the books. With an empty `item` only the wallet moves; `max` is the limit on the stack, zero for none. */
  datatype Entry = Entry(account: string, key: string, item: string, qty: int, delta: int, max: int, at: int)

  datatype Receipt = Receipt(profile: Profile, item: Stack, replay: bool)

  /** `Failed` is a statement the database rejects: the transaction is rolled back with an error of its own. */
  datatype Error = NoAccount | InsufficientFunds | ItemLimit | Failed

  datatype MatchRow = MatchRow(matchId: string, account: string, score: int, placement: int, before: int, after: int, reward: int)

  /** An account has a profile from the moment it exists. Keys are scoped to their account. */
  datatype Books = Books(
    profiles: map<string, Profile>, inventory: map<(string, string), Stack>, ledger: set<(string, string)>,
    matches: set<(string, string)>, history: map<string, seq<MatchRow>>)

  function Held(b: Books, account: string, item: string): Stack {
    if item != "" && (account, item) in b.inventory then b.inventory[(account, item)] else Stack(0, 0)
  }

  /** The account exists, the key is new and the wallet covers the movement. */
  predicate Payable(b: Books, e: Entry) {
    e.account in b.profiles && (e.account, e.key) !in b.ledger && b.profiles[e.account].currency + e.delta >= 0
  }

  predicate MemoryDeclines(b: Books, e: Entry) {
    e.item != "" && e.max > 0 && Held(b, e.account, e.item).qty + e.qty > e.max
  }

  /** What the in-memory store does with an entry. */
  function MemoryApply(b: Books, e: Entry): (Books, Result<Receipt, Error>) {
    if e.account !in b.profiles then (b, Err(NoAccount))
    else
      var p, held := b.profiles[e.account], Held(b, e.account, e.item);
      if (e.account, e.key) in b.ledger then (b, Ok(Receipt(p, held, true)))
      else if p.currency + e.delta < 0 then (b, Err(InsufficientFunds))
      else if MemoryDeclines(b, e) then (b, Err(ItemLimit))
      else Moved(b, e)
  }

  /** The movement itself: key, wallet and stack together. */
  function Moved(b: Books, e: Entry): (Books, Result<Receipt, Error>)
    requires e.account in b.profiles
  {
    var p := b.profiles[e.account].(currency := b.profiles[e.account].currency + e.delta);
    var held := Held(b, e.account, e.item);
    var paid := b.(ledger := b.ledger + {(e.account, e.key)}, profiles := b.profiles[e.account := p]);
    if e.item != "" && e.qty != 0 then
      var owned := Stack(held.qty + e.qty, if (e.account, e.item) in b.inventory then held.acquiredAt else e.at);
      (paid.(inventory := b.inventory[(e.account, e.item) := owned]), Ok(Receipt(p, owned, false)))
    else (paid, Ok(Receipt(p, held, false)))
  }

  /** An upsert over a stack that exists is held to the limit; a new row is not, its quantity having been checked alone. */
  predicate DatabaseDeclines(b: Books, e: Entry) {
    e.item != "" && e.qty > 0 && (e.account, e.item) in b.inventory && e.max != 0 && Held(b, e.account, e.item).qty + e.qty > e.max
  }

  /** A row with a negative quantity may not be inserted, and that is looked at before the conflict is. */
  predicate DatabaseFails(e: Entry) {
    e.item != "" && e.qty < 0
  }

  /** What the database transaction does: the ceiling on the quantity alone first, then key, wallet, item. */
  function DatabaseApply(b: Books, e: Entry): (Books, Result<Receipt, Error>) {
    if e.max > 0 && e.qty > e.max then (b, Err(ItemLimit))
    else if e.account !in b.profiles then (b, Err(NoAccount))
    else
      var p, held := b.profiles[e.account], Held(b, e.account, e.item);
      if (e.account, e.key) in b.ledger then (b, Ok(Receipt(p, held, true)))
      else if p.currency + e.delta < 0 then (b, Err(InsufficientFunds))
      else if DatabaseFails(e) then (b, Err(Failed))
      else if DatabaseDeclines(b, e) then (b, Err(ItemLimit))
      else Moved(b, e)
  }

  /** The entries the stores treat differently, all of them entries that could be paid for. */
  predicate Diverges(b: Books, e: Entry) {
    && Payable(b, e)
    && (|| (e.item != "" && e.qty == 0 && 0 < e.max < Held(b, e.account, e.item).qty)   // nothing moves above the limit
        || (e.item != "" && e.qty < 0 && !MemoryDeclines(b, e))                         // something is taken away
        || (e.item != "" && e.qty > 0 && e.max < 0 && DatabaseDeclines(b, e))           // a limit below zero
        || (e.item == "" && 0 < e.max < e.qty))                                         // a limit on no item
  }

  /** The stores reach the same books exactly when the entry is none of those, whatever its quantity and its limit. */
  lemma StoresAgreeOnBooks(b: Books, e: Entry)
    requires Held(b, e.account, e.item).qty >= 0
    ensures DatabaseApply(b, e).0 == MemoryApply(b, e).0 <==> !Diverges(b, e)
  {
    if Diverges(b, e) {
      assert (e.account, e.key) in Moved(b, e).0.ledger;
    }
  }

  /**
   They answer alike exactly when, besides, the quantity is not above the limit before anything else is wrong or
   the entry a replay, and nothing is taken away.
   */
  lemma StoresAgreeOnAnswers(b: Books, e: Entry)
    requires Held(b, e.account, e.item).qty >= 0
    ensures DatabaseApply(b, e) == MemoryApply(b, e)
       <==> && !Diverges(b, e)
            && !(0 < e.max < e.qty && !(Payable(b, e) && e.item != ""))
            && !(Payable(b, e) && e.item != "" && e.qty < 0)
  {
    StoresAgreeOnBooks(b, e);
  }

  const ONE_ACCOUNT: Books := Books(map["a" := Profile(1000, 0, 0, 0, 5)], map[("a", "skin") := Stack(2, 0)], {}, {}, map[])

  /** Where they part: a movement of none of an item held above its limit, one that takes away what is not held, and who is told what first. */
  lemma StoresPart()
    ensures var e := Entry("a", "k", "skin", 0, 0, 1, 0);
      DatabaseApply(ONE_ACCOUNT, e).0 != MemoryApply(ONE_ACCOUNT, e).0 && MemoryApply(ONE_ACCOUNT, e).1 == Err(ItemLimit)
    ensures var e := Entry("a", "k", "shell", -1, 0, 0, 0);
      DatabaseApply(ONE_ACCOUNT, e).1 == Err(Failed) && MemoryApply(ONE_ACCOUNT, e).1.Ok?
    ensures var e := Entry("b", "k", "skin", 2, 0, 1, 0);
      DatabaseApply(ONE_ACCOUNT, e).1 == Err(ItemLimit) && MemoryApply(ONE_ACCOUNT, e).1 == Err(NoAccount)
  {
    StoresAgreeOnBooks(ONE_ACCOUNT, Entry("a", "k", "skin", 0, 0, 1, 0));
  }

  // ---- what every entry keeps ----

  /** Limits that do not change between entries, as the catalogue's do not within a run. */
  type Limits = map<string, nat>

  function LimitOf(limits: Limits, item: string): nat {
    if item in limits then limits[item] else 0
  }

  ghost predicate Sound(b: Books, limits: Limits) {
    && (forall a :: a in b.profiles ==> b.profiles[a].currency >= 0)
    && (forall k :: k in b.inventory ==>
         b.inventory[k].qty >= 0 && (LimitOf(limits, k.1) > 0 ==> b.inventory[k].qty <= LimitOf(limits, k.1)))
  }

  /** An entry from the service carries the catalogue's limit for its item. */
  predicate Catalogued(e: Entry, limits: Limits) {
    e.max == if e.item == "" then 0 else LimitOf(limits, e.item)
  }

  /**
   Refusals and replays change nothing. The database's books stay sound whatever the quantity; the in-memory
   ones too, and the same, as long as nothing is taken away. Wallets are never overdrawn in either.
   */
  lemma ApplyKeeps(b: Books, e: Entry, limits: Limits)
    requires Sound(b, limits) && Catalogued(e, limits)
    ensures Sound(DatabaseApply(b, e).0, limits)
    ensures e.qty >= 0 ==> DatabaseApply(b, e).0 == MemoryApply(b, e).0
    ensures forall a :: a in MemoryApply(b, e).0.profiles ==> MemoryApply(b, e).0.profiles[a].currency >= 0
    ensures forall database: bool :: var r := Apply(b, e, database); r.1.Err? || r.1.value.replay ==> r.0 == b
  {
    DatabaseStaysSound(b, e, limits);
    StoresAgreeOnBooks(b, e);
  }

  lemma DatabaseStaysSound(b: Books, e: Entry, limits: Limits)
    requires Sound(b, limits) && Catalogued(e, limits)
    ensures Sound(DatabaseApply(b, e).0, limits)
  {
    var b' := DatabaseApply(b, e).0;
    assert forall k :: k in b'.inventory ==> k in b.inventory || k == (e.account, e.item);
  }

  function Apply(b: Books, e: Entry, database: bool): (Books, Result<Receipt, Error>) {
    if database then DatabaseApply(b, e) else MemoryApply(b, e)
  }

  ghost function ApplyAll(b: Books, es: seq<Entry>, database: bool): Books {
    if es == [] then b
    else
      Apply(ApplyAll(b, es[..|es| - 1], database), es[|es| - 1], database).0
  }

  /** Over any run of the service's entries that take nothing away the two stores keep the same books. */
  lemma {:induction false} StoresNeverPart(b: Books, es: seq<Entry>, limits: Limits)
    requires Sound(b, limits) && forall i :: 0 <= i < |es| ==> Catalogued(es[i], limits) && es[i].qty >= 0
    ensures ApplyAll(b, es, true) == ApplyAll(b, es, false) && Sound(ApplyAll(b, es, false), limits)
  {
    if es != [] {
      var n := |es| - 1;
      StoresNeverPart(b, es[..n], limits);
      ApplyKeeps(ApplyAll(b, es[..n], false), es[n], limits);
    }
  }

  /** One entry leaves every account and every key where it is. */
  lemma NothingIsForgotten(b: Books, e: Entry, database: bool)
    ensures var c := Apply(b, e, database).0; b.ledger <= c.ledger && b.profiles.Keys <= c.profiles.Keys
    ensures var (c, r) := Apply(b, e, database); r.Ok? ==> (e.account, e.key) in c.ledger && e.account in c.profiles
  {
  }

  lemma {:induction false} KeysLast(b: Books, es: seq<Entry>, i: nat, database: bool)
    requires i < |es| && Apply(ApplyAll(b, es[..i], database), es[i], database).1.Ok?
    ensures var c := ApplyAll(b, es, database); (es[i].account, es[i].key) in c.ledger && es[i].account in c.profiles
  {
    hide Apply;
    var n := |es| - 1;
    NothingIsForgotten(ApplyAll(b, es[..n], database), es[n], database);
    if i < n {
      assert es[..n][..i] == es[..i];
      KeysLast(b, es[..n], i, database);
    }
  }

  /**
   A key is charged once. After any run in which an entry was applied, another with its account and key moves
   nothing in either store. In memory it is answered as a replay; in the database too, unless it asks for more
   than the limit.
   */
  lemma SecondTimeIsReplay(b: Books, es: seq<Entry>, i: nat, again: Entry, database: bool)
    requires i < |es| && Apply(ApplyAll(b, es[..i], database), es[i], database).1.Ok?
    requires again.account == es[i].account && again.key == es[i].key
    ensures var c := ApplyAll(b, es, database);
      var r := Apply(c, again, database);
      && r.0 == c
      && (r.1.Ok? && r.1.value.replay <==> !(database && 0 < again.max < again.qty))
  {
    KeysLast(b, es, i, database);
  }

  /**
   A refusal leaves the key free. An entry refused for want of money goes through under the same key once the
   wallet covers it, in either store, exactly when the limit on the item does not refuse it.
   */
  lemma RefusalLeavesKeyFree(b: Books, e: Entry, wallet: int, database: bool)
    requires Apply(b, e, database).1 == Err(InsufficientFunds) && wallet + e.delta >= 0
    ensures Apply(b, e, database).0 == b
    ensures var richer := b.(profiles := b.profiles[e.account := b.profiles[e.account].(currency := wallet)]);
      var r := Apply(richer, e, database).1;
      r.Ok? && !r.value.replay <==> if database then !DatabaseFails(e) && !DatabaseDeclines(b, e) else !MemoryDeclines(b, e)
  {
  }

  // ---- finished matches ----

  function Rated(p: Profile, r: MatchRow): Profile {
    var rating := p.rating + (r.after - r.before);
    Profile(if rating > RATING_FLOOR then rating else RATING_FLOOR, p.matches + 1,
            p.wins + if r.placement == 1 then 1 else 0, p.kills + r.score, p.currency + r.reward)
  }

  function HistoryOf(b: Books, account: string): seq<MatchRow> {
    if account in b.history then b.history[account] else []
  }

  predicate Fresh(b: Books, r: MatchRow) {
    r.account in b.profiles && (r.matchId, r.account) !in b.matches
  }

  function RecordRow(b: Books, r: MatchRow): Books {
    if !Fresh(b, r) then b
    else
      b.(matches := b.matches + {(r.matchId, r.account)}, history := b.history[r.account := HistoryOf(b, r.account) + [r]],
         profiles := b.profiles[r.account := Rated(b.profiles[r.account], r)])
  }

  /** The in-memory store: row after row, and how many were new. */
  function MemoryRecord(b: Books, rows: seq<MatchRow>): (Books, nat) {
    if rows == [] then (b, 0)
    else
      var (before, n) := MemoryRecord(b, rows[..|rows| - 1]);
      var r := rows[|rows| - 1];
      (RecordRow(before, r), if Fresh(before, r) then n + 1 else n)
  }

  /** The rows the database keeps: the first of each account. */
  function FirstByAccount(rows: seq<MatchRow>): map<string, MatchRow> {
    if rows == [] then map[]
    else
      var before, r := FirstByAccount(rows[..|rows| - 1]), rows[|rows| - 1];
      if r.account in before then before else before[r.account := r]
  }

  /** Inserted where the account exists and the line does not, all against the books as they were. */
  ghost function Inserted(b: Books, rows: seq<MatchRow>): map<string, MatchRow> {
    var first := FirstByAccount(rows);
    map a | a in first && Fresh(b, first[a]) :: first[a]
  }

  ghost function Lines(w: map<string, MatchRow>): set<(string, string)> {
    set a | a in w :: (w[a].matchId, w[a].account)
  }

  ghost function Histories(b: Books, w: map<string, MatchRow>): map<string, seq<MatchRow>> {
    map a | a in b.history.Keys + w.Keys :: if a in w then HistoryOf(b, a) + [w[a]] else HistoryOf(b, a)
  }

  ghost function Ratings(b: Books, w: map<string, MatchRow>): map<string, Profile> {
    map a | a in b.profiles :: if a in w then Rated(b.profiles[a], w[a]) else b.profiles[a]
  }

  ghost function WithRows(b: Books, w: map<string, MatchRow>): Books {
    b.(matches := b.matches + Lines(w), history := Histories(b, w), profiles := Ratings(b, w))
  }

  ghost predicate ByAccount(w: map<string, MatchRow>) {
    forall a :: a in w ==> w[a].account == a
  }

  lemma LineOf(w: map<string, MatchRow>, k: (string, string))
    requires ByAccount(w)
    ensures k in Lines(w) <==> k.1 in w && w[k.1].matchId == k.0
  {
    if k.1 in w && w[k.1].matchId == k.0 {
      assert k == (w[k.1].matchId, w[k.1].account);
    }
  }

  /** The database: one set-based insert, then one update of every profile a new line belongs to. */
  ghost function DatabaseRecord(b: Books, rows: seq<MatchRow>): (Books, nat) {
    (WithRows(b, Inserted(b, rows)), |Inserted(b, rows)|)
  }

  /** A row that repeats an earlier row's account adds nothing: it names the same match, or one already recorded. */
  ghost predicate Harmless(b: Books, rows: seq<MatchRow>) {
    var first := FirstByAccount(rows);
    forall j :: 0 <= j < |rows| && rows[j].account in b.profiles ==>
      rows[j].account in first && (rows[j].matchId == first[rows[j].account].matchId || (rows[j].matchId, rows[j].account) in b.matches)
  }

  lemma {:induction false} FirstIsFirst(rows: seq<MatchRow>)
    ensures forall a :: a in FirstByAccount(rows) ==> FirstByAccount(rows)[a].account == a && FirstByAccount(rows)[a] in rows
    ensures forall r :: r in rows ==> r.account in FirstByAccount(rows)
  {
    if rows != [] {
      FirstIsFirst(rows[..|rows| - 1]);
      assert rows == rows[..|rows| - 1] + [rows[|rows| - 1]];
    }
  }

  lemma NoRows(b: Books)
    ensures WithRows(b, map[]) == b
  {
    var c := WithRows(b, map[]);
    assert c.history == b.history && c.profiles == b.profiles && c.matches == b.matches;
  }

  lemma OneMoreRow(b: Books, w: map<string, MatchRow>, r: MatchRow)
    requires ByAccount(w) && r.account !in w && Fresh(b, r)
    ensures Fresh(WithRows(b, w), r)
    ensures WithRows(b, w[r.account := r]) == RecordRow(WithRows(b, w), r)
  {
    var w' := w[r.account := r];
    LineOf(w, (r.matchId, r.account));
    forall k
      ensures k in Lines(w') <==> k in Lines(w) || k == (r.matchId, r.account)
    {
      LineOf(w', k);
      LineOf(w, k);
    }
    assert b.matches + Lines(w') == b.matches + Lines(w) + {(r.matchId, r.account)};
    assert Histories(b, w') == Histories(b, w)[r.account := HistoryOf(b, r.account) + [r]];
    assert Ratings(b, w') == Ratings(b, w)[r.account := Rated(b.profiles[r.account], r)];
  }

  /** Row by row, the in-memory store has recorded exactly what the database would have for the rows so far. */
  lemma {:induction false} RecordsAgree(b: Books, rows: seq<MatchRow>)
    requires Harmless(b, rows)
    ensures MemoryRecord(b, rows) == DatabaseRecord(b, rows)
  {
    hide WithRows, Harmless;
    if rows == [] {
      NoRows(b);
      assert Inserted(b, rows) == map[];
    } else {
      var n := |rows| - 1;
      var before, r := rows[..n], rows[n];
      HarmlessPrefix(b, rows);
      RecordsAgree(b, before);
      FirstIsFirst(before);
      var first := FirstByAccount(before);
      var w := Inserted(b, before);
      if r.account in first {
        assert Inserted(b, rows) == w;
        RepeatIsHarmless(b, rows);
        RepeatIsStale(b, before, r, first[r.account]);
      } else {
        assert rows == before + [r];
        NewAccount(b, before, r);
      }
    }
  }

  lemma RepeatIsHarmless(b: Books, rows: seq<MatchRow>)
    requires rows != [] && Harmless(b, rows)
    ensures var r, first := rows[|rows| - 1], FirstByAccount(rows[..|rows| - 1]);
      r.account in first && r.account in b.profiles ==> r.matchId == first[r.account].matchId || (r.matchId, r.account) in b.matches
  {
  }

  lemma HarmlessPrefix(b: Books, rows: seq<MatchRow>)
    requires rows != [] && Harmless(b, rows)
    ensures Harmless(b, rows[..|rows| - 1])
  {
    var before := rows[..|rows| - 1];
    FirstIsFirst(before);
    forall j | 0 <= j < |before| && before[j].account in b.profiles
      ensures before[j].account in FirstByAccount(before)
      ensures before[j].matchId == FirstByAccount(before)[before[j].account].matchId || (before[j].matchId, before[j].account) in b.matches
    {
      assert rows[j] == before[j] && before[j] in before;
    }
  }

  lemma RepeatIsStale(b: Books, before: seq<MatchRow>, r: MatchRow, first: MatchRow)
    requires r.account in FirstByAccount(before) && FirstByAccount(before)[r.account] == first && first.account == r.account
    requires r.account in b.profiles ==> r.matchId == first.matchId || (r.matchId, r.account) in b.matches
    ensures !Fresh(WithRows(b, Inserted(b, before)), r)
  {
    var w := Inserted(b, before);
    if r.account in b.profiles && (r.matchId, r.account) !in b.matches {
      assert r.account in w && w[r.account] == first;
    }
  }

  lemma NewAccount(b: Books, before: seq<MatchRow>, r: MatchRow)
    requires r.account !in FirstByAccount(before)
    requires forall a :: a in FirstByAccount(before) ==> FirstByAccount(before)[a].account == a
    ensures var w := Inserted(b, before);
      && WithRows(b, Inserted(b, before + [r])) == RecordRow(WithRows(b, w), r)
      && |Inserted(b, before + [r])| == |w| + if Fresh(WithRows(b, w), r) then 1 else 0
  {
    var w := Inserted(b, before);
    assert (before + [r])[..|before|] == before;
    if Fresh(b, r) {
      assert Inserted(b, before + [r]) == w[r.account := r];
      OneMoreRow(b, w, r);
    } else {
      assert Inserted(b, before + [r]) == w;
      assert !Fresh(WithRows(b, w), r);
    }
  }

  /** A repeated account that is not harmless is recorded twice in memory and once in the database. */
  lemma {:induction false} RecordsPart(b: Books, rows: seq<MatchRow>, j: nat)
    requires j < |rows| && Fresh(b, rows[j])
    requires rows[j].account in FirstByAccount(rows) && rows[j].matchId != FirstByAccount(rows)[rows[j].account].matchId
    ensures MemoryRecord(b, rows).0 != DatabaseRecord(b, rows).0
  {
    MemoryHasRow(b, rows, j);
    FirstIsFirst(rows);
    assert (rows[j].matchId, rows[j].account) !in DatabaseRecord(b, rows).0.matches;
  }

  lemma {:induction false} MemoryHasRow(b: Books, rows: seq<MatchRow>, j: nat)
    requires j < |rows| && rows[j].account in b.profiles
    ensures (rows[j].matchId, rows[j].account) in MemoryRecord(b, rows).0.matches
    ensures MemoryRecord(b, rows).0.profiles.Keys == b.profiles.Keys
  {
    var n := |rows| - 1;
    if j < n {
      MemoryHasRow(b, rows[..n], j);
    } else {
      ProfilesStay(b, rows[..n]);
    }
  }

  lemma {:induction false} ProfilesStay(b: Books, rows: seq<MatchRow>)
    ensures MemoryRecord(b, rows).0.profiles.Keys == b.profiles.Keys
  {
    if rows != [] {
      ProfilesStay(b, rows[..|rows| - 1]);
    }
  }

  /** The two stores record a batch alike exactly when its repeats are harmless. */
  lemma RecordsAgreeExactly(b: Books, rows: seq<MatchRow>)
    ensures MemoryRecord(b, rows).0 == DatabaseRecord(b, rows).0 <==> Harmless(b, rows)
  {
    FirstIsFirst(rows);
    if Harmless(b, rows) {
      RecordsAgree(b, rows);
    } else {
      var j :| 0 <= j < |rows| && rows[j].account in b.profiles
        && !(rows[j].account in FirstByAccount(rows)
             && (rows[j].matchId == FirstByAccount(rows)[rows[j].account].matchId || (rows[j].matchId, rows[j].account) in b.matches));
      assert rows[j] in rows;
      RecordsPart(b, rows, j);
    }
  }

  const TWICE: seq<MatchRow> := [MatchRow("m", "a", 1, 1, 1000, 1010, 5), MatchRow("n", "a", 0, 2, 1010, 1000, 1)]

  /** A batch on which they part: one account twice, under two matches. */
  lemma BatchesPart()
    ensures MemoryRecord(ONE_ACCOUNT, TWICE).0 != DatabaseRecord(ONE_ACCOUNT, TWICE).0
  {
    RecordsAgreeExactly(ONE_ACCOUNT, TWICE);
    hide MemoryRecord, DatabaseRecord;
    assert TWICE[..1][..0] == [];
    assert FirstByAccount(TWICE[..1]) == map["a" := TWICE[0]];
    assert FirstByAccount(TWICE) == map["a" := TWICE[0]];
    assert TWICE[1].account in ONE_ACCOUNT.profiles;
  }

  /** What the service sends: one match, and one line per account. */
  ghost predicate OneMatch(rows: seq<MatchRow>) {
    forall i, j :: 0 <= i < j < |rows| ==> rows[i].matchId == rows[j].matchId && rows[i].account != rows[j].account
  }

  lemma OneMatchIsHarmless(b: Books, rows: seq<MatchRow>)
    requires OneMatch(rows)
    ensures Harmless(b, rows)
    ensures forall j :: 0 <= j < |rows| ==> rows[j].account in FirstByAccount(rows) && FirstByAccount(rows)[rows[j].account] == rows[j]
  {
    FirstIsFirst(rows);
    forall j | 0 <= j < |rows|
      ensures rows[j].account in FirstByAccount(rows) && FirstByAccount(rows)[rows[j].account] == rows[j]
    {
      assert rows[j] in rows;
      var f := FirstByAccount(rows)[rows[j].account];
      var i :| 0 <= i < |rows| && rows[i] == f;
    }
  }

  /** Recording part of a match and then all of it is recording all of it once. */
  lemma PartialRecordingIsHarmless(b: Books, part: seq<MatchRow>, rows: seq<MatchRow>)
    requires OneMatch(rows) && OneMatch(part) && forall r :: r in part ==> r in rows
    ensures MemoryRecord(MemoryRecord(b, part).0, rows).0 == MemoryRecord(b, rows).0
  {
    OneMatchIsHarmless(b, part);
    RecordsAgree(b, part);
    var c := MemoryRecord(b, part).0;
    OneMatchIsHarmless(c, rows);
    RecordsAgree(c, rows);
    OneMatchIsHarmless(b, rows);
    RecordsAgree(b, rows);
    FirstIsFirst(rows);
    FirstIsFirst(part);
    var w1, w2, w := Inserted(b, part), Inserted(c, rows), Inserted(b, rows);
    PartThenRest(b, part, rows);
    TwoBatches(b, w1, w2);
  }

  lemma PartIsPart(b: Books, part: seq<MatchRow>, rows: seq<MatchRow>)
    requires OneMatch(rows) && forall r :: r in part ==> r in rows
    ensures forall a :: a in FirstByAccount(part) ==>
      a in FirstByAccount(rows) && FirstByAccount(rows)[a] == FirstByAccount(part)[a]
  {
    OneMatchIsHarmless(b, rows);
    FirstIsFirst(part);
    hide Harmless, OneMatch;
    var f, g := FirstByAccount(part), FirstByAccount(rows);
    forall a | a in f
      ensures a in g && g[a] == f[a]
    {
      assert f[a] in rows;
      var i :| 0 <= i < |rows| && rows[i] == f[a];
    }
  }

  lemma PartThenRest(b: Books, part: seq<MatchRow>, rows: seq<MatchRow>)
    requires OneMatch(rows) && OneMatch(part) && forall r :: r in part ==> r in rows
    ensures var w1 := Inserted(b, part);
      var w2 := Inserted(WithRows(b, w1), rows);
      && w1.Keys !! w2.Keys && w1 + w2 == Inserted(b, rows)
      && ByAccount(w1) && ByAccount(w2)
  {
    FirstIsFirst(rows);
    FirstIsFirst(part);
    PartIsPart(b, part, rows);
    hide OneMatch, Harmless, Rated;
    var f, g := FirstByAccount(part), FirstByAccount(rows);
    var w1 := Inserted(b, part);
    var c := WithRows(b, w1);
    var w2 := Inserted(c, rows);
    forall a | a in g
      ensures a in w2 <==> Fresh(b, g[a]) && a !in w1
    {
      if a in w1 {
        assert w1[a] == g[a] && (g[a].matchId, a) in c.matches;
      }
      if (g[a].matchId, a) in c.matches && (g[a].matchId, a) !in b.matches {
        var x :| x in w1 && (w1[x].matchId, w1[x].account) == (g[a].matchId, a);
      }
    }
    assert w1 + w2 == Inserted(b, rows);
  }

  lemma TwoBatches(b: Books, w1: map<string, MatchRow>, w2: map<string, MatchRow>)
    requires w1.Keys !! w2.Keys && ByAccount(w1) && ByAccount(w2)
    ensures WithRows(WithRows(b, w1), w2) == WithRows(b, w1 + w2)
  {
    var c := WithRows(b, w1);
    TwoBatchesOfLines(w1, w2);
    TwoBatchesOfHistory(b, c, w1, w2);
    TwoBatchesOfRatings(b, c, w1, w2);
    hide Lines, Histories, Ratings;
    assert b.matches + Lines(w1 + w2) == b.matches + Lines(w1) + Lines(w2);
  }

  lemma TwoBatchesOfHistory(b: Books, c: Books, w1: map<string, MatchRow>, w2: map<string, MatchRow>)
    requires w1.Keys !! w2.Keys && c.history == Histories(b, w1)
    ensures Histories(b, w1 + w2) == Histories(c, w2)
  {
    var x, y := Histories(b, w1 + w2), Histories(c, w2);
    assert forall a :: a in x <==> a in y;
    forall a | a in y
      ensures x[a] == y[a]
    {
    }
  }

  lemma TwoBatchesOfRatings(b: Books, c: Books, w1: map<string, MatchRow>, w2: map<string, MatchRow>)
    requires w1.Keys !! w2.Keys && c.profiles == Ratings(b, w1)
    ensures Ratings(b, w1 + w2) == Ratings(c, w2)
  {
    hide Rated;
  }

  lemma TwoBatchesOfLines(w1: map<string, MatchRow>, w2: map<string, MatchRow>)
    requires w1.Keys !! w2.Keys && ByAccount(w1) && ByAccount(w2)
    ensures Lines(w1 + w2) == Lines(w1) + Lines(w2)
  {
    forall k
      ensures k in Lines(w1 + w2) <==> k in Lines(w1) || k in Lines(w2)
    {
      LineOf(w1 + w2, k);
      LineOf(w1, k);
      LineOf(w2, k);
    }
  }
}
