/** What the books come to: what one entry moves, what a run of entries adds up to, and what a profile owes its matches. */
module LedgerLaws {
  import opened Wrappers
  import opened Ledger
  import Stores = LedgerStores

  function Quantity(b: Books, account: string, item: string): int {
    if (account, item) in b.inventory then b.inventory[(account, item)].qty else 0
  }

  /** The stack a receipt shows: what is held of the entry's item, or nothing. */
  function Shown(b: Books, e: Entry): Stack {
    if e.item != "" && (e.account, e.item) in b.inventory then b.inventory[(e.account, e.item)] else Stack(0, 0)
  }

  /** The entry went through, and not for a second time. */
  predicate WentThrough(b: Books, e: Entry, database: bool) {
    var r := Apply(b, e, database).1;
    r.Ok? && !r.value.replay
  }

  /** The entry adds to what is held: nothing below none, and no stack past its limit. */
  predicate Allowed(b: Books, e: Entry, database: bool) {
    var held := Quantity(b, e.account, e.item);
    if database then
      && (e.max > 0 ==> e.qty <= e.max) && (e.item != "" ==> e.qty >= 0)
      && (e.item != "" && e.qty > 0 && (e.account, e.item) in b.inventory && e.max != 0 ==> held + e.qty <= e.max)
    else e.item != "" && e.max > 0 ==> held + e.qty <= e.max
  }

  /** Which entries go through, and what they move: the wallet by the amount, the stack by the quantity, the key, and nothing else. */
  lemma EntryMoves(b: Books, e: Entry, database: bool)
    ensures WentThrough(b, e, database) <==>
      && e.account in b.profiles && (e.account, e.key) !in b.ledger && b.profiles[e.account].currency + e.delta >= 0
      && Allowed(b, e, database)
    ensures !WentThrough(b, e, database) ==> Apply(b, e, database).0 == b
    ensures WentThrough(b, e, database) ==>
      var (c, r) := Apply(b, e, database);
      && c.profiles.Keys == b.profiles.Keys && c.profiles[e.account].currency == b.profiles[e.account].currency + e.delta
      && (forall a :: a in b.profiles ==> c.profiles[a] == b.profiles[a].(currency := c.profiles[a].currency))
      && (forall a :: a in b.profiles && a != e.account ==> c.profiles[a] == b.profiles[a])
      && (forall a, i :: Quantity(c, a, i) == Quantity(b, a, i) + if a == e.account && i == e.item != "" then e.qty else 0)
      && (forall k :: k in b.inventory ==> k in c.inventory && c.inventory[k].acquiredAt == b.inventory[k].acquiredAt)
      && (forall k :: k in c.inventory && k !in b.inventory ==>
           k == (e.account, e.item) && e.item != "" && e.qty != 0 && c.inventory[k].acquiredAt == e.at)
      && c.ledger == b.ledger + {(e.account, e.key)} && c.matches == b.matches && c.history == b.history
      && r.value.profile == c.profiles[e.account] && r.value.item == Shown(c, e)
  {
  }

  /** A second time is told what there is now. */
  lemma ReplayShowsTheBooks(b: Books, e: Entry, database: bool)
    requires Apply(b, e, database).1.Ok? && Apply(b, e, database).1.value.replay
    ensures e.account in b.profiles && (e.account, e.key) in b.ledger
    ensures var r := Apply(b, e, database); r.0 == b && r.1.value.profile == b.profiles[e.account] && r.1.value.item == Shown(b, e)
  {
  }

  // ---- runs ----

  /** The entries of a run that went through, in order. */
  ghost function Through(b: Books, es: seq<Entry>, database: bool): seq<Entry> {
    if es == [] then []
    else
      var n := |es| - 1;
      Through(b, es[..n], database) + if WentThrough(ApplyAll(b, es[..n], database), es[n], database) then [es[n]] else []
  }

  function Items(es: seq<Entry>, account: string, item: string): int {
    if es == [] then 0
    else
      var e := es[|es| - 1];
      Items(es[..|es| - 1], account, item) + if e.account == account && e.item == item then e.qty else 0
  }

  function Money(es: seq<Entry>, account: string): int {
    if es == [] then 0
    else Money(es[..|es| - 1], account) + if es[|es| - 1].account == account then es[|es| - 1].delta else 0
  }

  lemma OneMoreEntry(es: seq<Entry>, e: Entry, account: string, item: string)
    ensures Items(es + [e], account, item) == Items(es, account, item) + if e.account == account && e.item == item then e.qty else 0
    ensures Money(es + [e], account) == Money(es, account) + if e.account == account then e.delta else 0
  {
    assert (es + [e])[..|es|] == es;
  }

  /** In either store a stack is what it was and every quantity that went through, and a wallet every amount. */
  lemma {:induction false} BooksAddUp(b: Books, es: seq<Entry>, account: string, item: string, database: bool)
    requires account in b.profiles && item != ""
    ensures var c, through := ApplyAll(b, es, database), Through(b, es, database);
      && account in c.profiles
      && Quantity(c, account, item) == Quantity(b, account, item) + Items(through, account, item)
      && c.profiles[account].currency == b.profiles[account].currency + Money(through, account)
  {
    hide Apply, WentThrough, Quantity;
    if es != [] {
      var n := |es| - 1;
      BooksAddUp(b, es[..n], account, item, database);
      var before := ApplyAll(b, es[..n], database);
      EntryMoves(before, es[n], database);
      var had := Through(b, es[..n], database);
      assert had + [] == had;
      OneMoreEntry(had, es[n], account, item);
    }
  }

  // ---- a profile and its matches ----

  function Wins(rows: seq<MatchRow>): nat {
    if rows == [] then 0 else Wins(rows[..|rows| - 1]) + if rows[|rows| - 1].placement == 1 then 1 else 0
  }

  function Kills(rows: seq<MatchRow>): int {
    if rows == [] then 0 else Kills(rows[..|rows| - 1]) + rows[|rows| - 1].score
  }

  function Rewards(rows: seq<MatchRow>): int {
    if rows == [] then 0 else Rewards(rows[..|rows| - 1]) + rows[|rows| - 1].reward
  }

  /** The rating after these matches, each moving it by what it was worth, never below a hundred. */
  function RatingAfter(rating: int, rows: seq<MatchRow>): int {
    if rows == [] then rating
    else
      var moved := RatingAfter(rating, rows[..|rows| - 1]) + rows[|rows| - 1].after - rows[|rows| - 1].before;
      if moved < 100 then 100 else moved
  }

  /** `q` is the profile `p` after these matches and nothing else. */
  ghost predicate Earned(p: Profile, q: Profile, rows: seq<MatchRow>) {
    && q.matches == p.matches + |rows| && q.wins == p.wins + Wins(rows) && q.kills == p.kills + Kills(rows)
    && q.currency == p.currency + Rewards(rows) && q.rating == RatingAfter(p.rating, rows)
  }

  lemma EarnedOnce(p: Profile, m: Profile, rows: seq<MatchRow>, r: MatchRow)
    requires Earned(p, m, rows)
    ensures Earned(p, Rated(m, r), rows + [r])
  {
    assert (rows + [r])[..|rows|] == rows;
  }

  predicate Holds(rows: seq<MatchRow>, matchId: string) {
    exists i :: 0 <= i < |rows| && rows[i].matchId == matchId
  }

  /** The lines of a batch that are new to the account, in order: each match once, and none it had. */
  ghost function NewLines(b: Books, rows: seq<MatchRow>, account: string): seq<MatchRow> {
    if rows == [] then []
    else
      var before, r := rows[..|rows| - 1], rows[|rows| - 1];
      var had := NewLines(b, before, account);
      if r.account == account && (r.matchId, account) !in b.matches && !Holds(had, r.matchId) then had + [r]
      else had
  }

  /** Over any batch a profile earns exactly its new lines, which are added to its history; accounts that do not exist get nothing. */
  lemma {:induction false} ProfileIsItsMatches(b: Books, rows: seq<MatchRow>, account: string)
    ensures var c := MemoryRecord(b, rows).0;
      && c.profiles.Keys == b.profiles.Keys && c.inventory == b.inventory && c.ledger == b.ledger
      && (account !in b.profiles ==> HistoryOf(c, account) == HistoryOf(b, account) && (account in c.history <==> account in b.history))
      && (account in b.profiles ==>
           && HistoryOf(c, account) == HistoryOf(b, account) + NewLines(b, rows, account)
           && Earned(b.profiles[account], c.profiles[account], NewLines(b, rows, account))
           && forall m :: (m, account) in c.matches <==> (m, account) in b.matches || Holds(NewLines(b, rows, account), m))
  {
    hide Rated, Earned, Holds, RecordRow, Fresh;
    if rows == [] {
      NothingEarned(b, account);
    } else {
      var before, r := rows[..|rows| - 1], rows[|rows| - 1];
      ProfileIsItsMatches(b, before, account);
      var c, had := MemoryRecord(b, before).0, NewLines(b, before, account);
      RowIsRecorded(c, r, account);
      if account in b.profiles && r.account == account {
        EarnedOnce(b.profiles[account], c.profiles[account], had, r);
        OneMoreLine(had, r);
      }
    }
  }

  /** One row: a new line of an account that exists, or nothing. */
  lemma RowIsRecorded(b: Books, r: MatchRow, account: string)
    ensures var c, fresh_ := RecordRow(b, r), r.account in b.profiles && (r.matchId, r.account) !in b.matches;
      && c.profiles.Keys == b.profiles.Keys && c.inventory == b.inventory && c.ledger == b.ledger
      && (!fresh_ ==> c == b)
      && (r.account != account ==>
           && HistoryOf(c, account) == HistoryOf(b, account) && (account in c.history <==> account in b.history)
           && (account in b.profiles ==> c.profiles[account] == b.profiles[account])
           && forall m :: (m, account) in c.matches <==> (m, account) in b.matches)
      && (fresh_ && r.account == account ==>
           && HistoryOf(c, account) == HistoryOf(b, account) + [r]
           && c.profiles[account] == Rated(b.profiles[account], r)
           && forall m :: (m, account) in c.matches <==> (m, account) in b.matches || m == r.matchId)
  {
    hide Rated;
  }

  lemma NothingEarned(b: Books, account: string)
    ensures account in b.profiles ==> Earned(b.profiles[account], b.profiles[account], [])
    ensures forall m :: !Holds([], m)
  {
  }

  lemma OneMoreLine(had: seq<MatchRow>, r: MatchRow)
    ensures forall m :: Holds(had + [r], m) <==> Holds(had, m) || m == r.matchId
  {
    var more := had + [r];
    assert more[|had|] == r;
    forall m | Holds(had, m)
      ensures Holds(more, m)
    {
      var i :| 0 <= i < |had| && had[i].matchId == m;
      assert more[i] == had[i];
    }
  }

  /** And the number a batch is answered with is how many lines it added. */
  lemma {:induction false} CountIsOfNewLines(b: Books, rows: seq<MatchRow>)
    ensures |MemoryRecord(b, rows).0.matches| == |b.matches| + MemoryRecord(b, rows).1
  {
    if rows != [] {
      CountIsOfNewLines(b, rows[..|rows| - 1]);
    }
  }

  /** The database does the same for the first line of each account. */
  lemma DatabaseProfileIsItsMatches(b: Books, rows: seq<MatchRow>, account: string)
    requires account in b.profiles
    ensures var c, new_ := DatabaseRecord(b, rows).0, NewLines(b, Stores.FirstRows(rows), account);
      && account in c.profiles && HistoryOf(c, account) == HistoryOf(b, account) + new_
      && Earned(b.profiles[account], c.profiles[account], new_) && |new_| <= 1
      && |c.matches| == |b.matches| + DatabaseRecord(b, rows).1
  {
    Stores.FirstRowsAreFirst(rows);
    Stores.LoopIsTheDatabase(b, rows);
    ProfileIsItsMatches(b, Stores.FirstRows(rows), account);
    CountIsOfNewLines(b, Stores.FirstRows(rows));
    OneLineAtMost(b, Stores.FirstRows(rows), account);
    hide MemoryRecord, DatabaseRecord;
  }

  lemma {:induction false} OneLineAtMost(b: Books, rows: seq<MatchRow>, account: string)
    requires Stores.OncePerAccount(rows)
    ensures |NewLines(b, rows, account)| <= 1
    ensures NewLines(b, rows, account) != [] ==> exists i :: 0 <= i < |rows| && rows[i].account == account
  {
    if rows != [] {
      var n := |rows| - 1;
      OneLineAtMost(b, rows[..n], account);
      if NewLines(b, rows[..n], account) != [] {
        var i :| 0 <= i < n && rows[..n][i].account == account;
        assert rows[i].account == account;
      } else if NewLines(b, rows, account) != [] {
        assert rows[n].account == account;
      }
    }
  }
}
