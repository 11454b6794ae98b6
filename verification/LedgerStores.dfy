/**
 The two stores as they run: the in-memory one updates its maps under a lock, the database one works on a
 transaction that either commits or leaves everything as it was.
 */
module LedgerStores {
  import opened Wrappers
  import opened Ledger

  class Memory {
    var books: Books

    constructor (b: Books)
      ensures books == b
    {
      books := b;
    }

    method Apply(e: Entry) returns (r: Result<Receipt, Error>)
      modifies this
      ensures (books, r) == MemoryApply(old(books), e)
    {
      if e.account !in books.profiles {
        return Err(NoAccount);
      }
      var p := books.profiles[e.account];
      var held := Held(books, e.account, e.item);
      if (e.account, e.key) in books.ledger {
        return Ok(Receipt(p, held, true));
      }
      if p.currency + e.delta < 0 {
        return Err(InsufficientFunds);
      }
      if e.item != "" && e.max > 0 && held.qty + e.qty > e.max {
        return Err(ItemLimit);
      }
      books := books.(ledger := books.ledger + {(e.account, e.key)});
      p := p.(currency := p.currency + e.delta);
      books := books.(profiles := books.profiles[e.account := p]);
      if e.item != "" && e.qty != 0 {
        if (e.account, e.item) !in books.inventory {
          books := books.(inventory := books.inventory[(e.account, e.item) := Stack(0, e.at)]);
        }
        held := books.inventory[(e.account, e.item)];
        held := held.(qty := held.qty + e.qty);
        books := books.(inventory := books.inventory[(e.account, e.item) := held]);
        assert books.inventory == old(books.inventory)[(e.account, e.item) := held];
      }
      r := Ok(Receipt(p, held, false));
    }

    method RecordMatch(rows: seq<MatchRow>) returns (applied: nat)
      modifies this
      ensures (books, applied) == MemoryRecord(old(books), rows)
    {
      applied := 0;
      for i := 0 to |rows|
        invariant (books, applied) == MemoryRecord(old(books), rows[..i])
      {
        var r := rows[i];
        assert rows[..i + 1][..i] == rows[..i];
        if r.account !in books.profiles {
          continue;
        }
        if (r.matchId, r.account) in books.matches {
          continue;
        }
        var p := books.profiles[r.account];
        books := books.(matches := books.matches + {(r.matchId, r.account)});
        books := books.(history := books.history[r.account := HistoryOf(books, r.account) + [r]]);
        p := p.(rating := if p.rating + (r.after - r.before) > RATING_FLOOR then p.rating + (r.after - r.before) else RATING_FLOOR);
        p := p.(matches := p.matches + 1, kills := p.kills + r.score);
        if r.placement == 1 {
          p := p.(wins := p.wins + 1);
        }
        p := p.(currency := p.currency + r.reward);
        books := books.(profiles := books.profiles[r.account := p]);
        applied := applied + 1;
      }
      assert rows[..|rows|] == rows;
    }
  }

  // ---- the statements the database runs, each atomic ----

  /** INSERT INTO ledger ... ON CONFLICT DO NOTHING, against an account that must exist: the rows affected, or a violation. */
  function InsertKey(b: Books, e: Entry): (Books, Option<nat>) {
    if (e.account, e.key) in b.ledger then (b, Some(0))
    else if e.account !in b.profiles then (b, None)
    else (b.(ledger := b.ledger + {(e.account, e.key)}), Some(1))
  }

  /** UPDATE profiles SET currency ... WHERE the balance stays non-negative. */
  function MoveCurrency(b: Books, e: Entry): (Books, Option<Profile>) {
    if e.account in b.profiles && b.profiles[e.account].currency + e.delta >= 0 then
      var p := b.profiles[e.account].(currency := b.profiles[e.account].currency + e.delta);
      (b.(profiles := b.profiles[e.account := p]), Some(p))
    else (b, None)
  }

  /**
   INSERT INTO inventory ... ON CONFLICT DO UPDATE ... WHERE the ceiling holds. The CHECK on the quantity is on
   the row proposed for insertion, before the conflict is looked for; no row back means the ceiling did not hold.
   */
  function MoveItem(b: Books, e: Entry): (Books, Result<Option<Stack>, Error>) {
    var k := (e.account, e.item);
    if e.qty < 0 then (b, Err(Failed))
    else if k !in b.inventory then (b.(inventory := b.inventory[k := Stack(e.qty, e.at)]), Ok(Some(Stack(e.qty, e.at))))
    else if e.max == 0 || b.inventory[k].qty + e.qty <= e.max then
      var owned := b.inventory[k].(qty := b.inventory[k].qty + e.qty);
      (b.(inventory := b.inventory[k := owned]), Ok(Some(owned)))
    else (b, Ok(None))
  }

  /** INSERT INTO match_results, one line: only for an account that exists and a line that does not. */
  function InsertLine(b: Books, r: MatchRow): Books {
    if !Fresh(b, r) then b
    else b.(matches := b.matches + {(r.matchId, r.account)}, history := b.history[r.account := HistoryOf(b, r.account) + [r]])
  }

  /** The set-based insert, and the accounts it returns. */
  function InsertLines(b: Books, rows: seq<MatchRow>): (Books, seq<string>) {
    if rows == [] then (b, [])
    else
      var (before, written) := InsertLines(b, rows[..|rows| - 1]);
      var r := rows[|rows| - 1];
      (InsertLine(before, r), if Fresh(before, r) then written + [r.account] else written)
  }

  /** One profile's share of the update. */
  datatype Movement = Movement(account: string, rating: int, win: nat, kills: int, pay: int)

  function MoveProfile(profiles: map<string, Profile>, u: Movement): map<string, Profile> {
    if u.account !in profiles then profiles
    else
      var p := profiles[u.account];
      profiles[u.account := Profile(if p.rating + u.rating > RATING_FLOOR then p.rating + u.rating else RATING_FLOOR,
                                    p.matches + 1, p.wins + u.win, p.kills + u.kills, p.currency + u.pay)]
  }

  /** UPDATE profiles ... FROM the movements, which name each account at most once. */
  function MoveProfiles(profiles: map<string, Profile>, ups: seq<Movement>): map<string, Profile> {
    if ups == [] then profiles else MoveProfile(MoveProfiles(profiles, ups[..|ups| - 1]), ups[|ups| - 1])
  }

  function MovementOf(r: MatchRow): Movement {
    Movement(r.account, r.after - r.before, if r.placement == 1 then 1 else 0, r.score, r.reward)
  }

  // ---- the first line of each account ----

  predicate HasLine(rows: seq<MatchRow>, account: string) {
    exists k :: k in rows && k.account == account
  }

  function FirstRows(rows: seq<MatchRow>): (kept: seq<MatchRow>) {
    if rows == [] then []
    else
      var before, r := FirstRows(rows[..|rows| - 1]), rows[|rows| - 1];
      if HasLine(before, r.account) then before else before + [r]
  }

  ghost predicate OncePerAccount(rows: seq<MatchRow>) {
    forall i, j :: 0 <= i < j < |rows| ==> rows[i].account != rows[j].account
  }

  /** Nothing is repeated, and every account keeps the line it came with first. */
  lemma {:induction false} FirstRowsAreFirst(rows: seq<MatchRow>)
    ensures OncePerAccount(FirstRows(rows))
    ensures FirstByAccount(FirstRows(rows)) == FirstByAccount(rows)
    ensures forall a :: a in FirstByAccount(rows) <==> HasLine(FirstRows(rows), a)
  {
    if rows != [] {
      var before, r := FirstRows(rows[..|rows| - 1]), rows[|rows| - 1];
      FirstRowsAreFirst(rows[..|rows| - 1]);
      hide OncePerAccount, HasLine;
      if !HasLine(before, r.account) {
        OneMoreFirst(before, r);
      }
    }
  }

  lemma OneMoreFirst(before: seq<MatchRow>, r: MatchRow)
    requires OncePerAccount(before) && !HasLine(before, r.account)
    ensures OncePerAccount(before + [r])
    ensures forall a :: HasLine(before + [r], a) <==> HasLine(before, a) || a == r.account
    ensures r.account !in FirstByAccount(before) ==> FirstByAccount(before + [r]) == FirstByAccount(before)[r.account := r]
  {
    assert (before + [r])[..|before|] == before;
    forall i, j | 0 <= i < j < |before + [r]|
      ensures (before + [r])[i].account != (before + [r])[j].account
    {
      assert (before + [r])[i] == before[i];
    }
    MoreLines(before, r);
  }

  lemma MoreLines(before: seq<MatchRow>, r: MatchRow)
    ensures forall a :: HasLine(before + [r], a) <==> HasLine(before, a) || a == r.account
  {
    assert forall k :: k in before + [r] <==> k in before || k == r;
    assert r in before + [r];
  }

  method DedupeByAccount(rows: seq<MatchRow>) returns (out: seq<MatchRow>)
    ensures out == FirstRows(rows)
  {
    var seen: set<string> := {};
    out := [];
    for i := 0 to |rows|
      invariant out == FirstRows(rows[..i])
      invariant forall a :: a in seen <==> HasLine(out, a)
    {
      assert rows[..i + 1][..i] == rows[..i];
      if rows[i].account in seen {
        continue;
      }
      MoreLines(out, rows[i]);
      seen := seen + {rows[i].account};
      out := out + [rows[i]];
    }
    assert rows[..|rows|] == rows;
  }

  // ---- the record of a match, statement by statement ----

  function Written(b: Books, rows: seq<MatchRow>): seq<MatchRow> {
    if rows == [] then []
    else
      var before, r := Written(b, rows[..|rows| - 1]), rows[|rows| - 1];
      if Fresh(b, r) then before + [r] else before
  }

  function Movements(rows: seq<MatchRow>): (ups: seq<Movement>)
    ensures |ups| == |rows|
  {
    if rows == [] then [] else Movements(rows[..|rows| - 1]) + [MovementOf(rows[|rows| - 1])]
  }

  lemma {:induction false} OneMore(b: Books, rows: seq<MatchRow>, r: MatchRow)
    ensures Movements(rows + [r]) == Movements(rows) + [MovementOf(r)]
    ensures MoveProfiles(b.profiles, Movements(rows + [r])) == MoveProfile(MoveProfiles(b.profiles, Movements(rows)), MovementOf(r))
    ensures Written(b, rows + [r]) == if Fresh(b, r) then Written(b, rows) + [r] else Written(b, rows)
    ensures InsertLines(b, rows + [r]).0 == InsertLine(InsertLines(b, rows).0, r)
    ensures MemoryRecord(b, rows + [r]).0 == RecordRow(MemoryRecord(b, rows).0, r)
    ensures MemoryRecord(b, rows + [r]).1 == MemoryRecord(b, rows).1 + if Fresh(MemoryRecord(b, rows).0, r) then 1 else 0
  {
    hide Fresh, RecordRow, InsertLine, MoveProfile;
    assert (rows + [r])[..|rows|] == rows;
    var ups := Movements(rows);
    assert (ups + [MovementOf(r)])[..|ups|] == ups;
  }

  /** Line by line over accounts that do not repeat, only a line's own account decides whether it is new. */
  lemma {:induction false} InsertsStayApart(b: Books, rows: seq<MatchRow>)
    requires OncePerAccount(rows)
    ensures InsertLines(b, rows).0.profiles == b.profiles
    ensures forall m: string, a: string | (forall r :: r in rows ==> r.account != a) ::
      (m, a) in InsertLines(b, rows).0.matches <==> (m, a) in b.matches
    ensures |InsertLines(b, rows).1| == |Written(b, rows)|
    ensures forall i :: 0 <= i < |Written(b, rows)| ==>
      InsertLines(b, rows).1[i] == Written(b, rows)[i].account && Written(b, rows)[i] in rows
  {
    if rows != [] {
      var p, r := rows[..|rows| - 1], rows[|rows| - 1];
      InsertsStayApart(b, p);
      assert forall x :: x in rows <==> x in p || x == r;
      assert forall x :: x in p ==> x.account != r.account;
    }
  }

  /** A line and its profile's movement are the row. */
  lemma RowIsLineAndMovement(c: Books, moved: map<string, Profile>, r: MatchRow)
    requires c.profiles.Keys == moved.Keys
    ensures RecordRow(c.(profiles := moved), r) ==
      if Fresh(c, r) then InsertLine(c, r).(profiles := MoveProfile(moved, MovementOf(r))) else c.(profiles := moved)
    ensures Fresh(c.(profiles := moved), r) == Fresh(c, r)
    ensures InsertLine(c, r).profiles == c.profiles && MoveProfile(moved, MovementOf(r)).Keys == moved.Keys
  {
  }

  /** Inserting all lines and then moving all profiles is recording row after row. */
  lemma {:induction false} TwoStatementsAreTheLoop(b: Books, rows: seq<MatchRow>)
    requires OncePerAccount(rows)
    ensures var c := InsertLines(b, rows).0;
      && MemoryRecord(b, rows).0 == c.(profiles := MoveProfiles(b.profiles, Movements(Written(b, rows))))
      && MemoryRecord(b, rows).1 == |Written(b, rows)| && c.profiles == b.profiles
    ensures MoveProfiles(b.profiles, Movements(Written(b, rows))).Keys == b.profiles.Keys
  {
    if rows != [] {
      var p, r := rows[..|rows| - 1], rows[|rows| - 1];
      assert rows == p + [r];
      hide InsertLines, MemoryRecord, MoveProfiles, Movements, Written, RecordRow, InsertLine, MoveProfile;
      TwoStatementsAreTheLoop(b, p);
      InsertsStayApart(b, p);
      assert forall x :: x in p ==> x.account != r.account;
      OneMore(b, p, r);
      OneMore(b, Written(b, p), r);
      RowIsLineAndMovement(InsertLines(b, p).0, MoveProfiles(b.profiles, Movements(Written(b, p))), r);
      if !Fresh(b, r) {
        StaleLine(InsertLines(b, p).0, r);
      }
    }
  }

  lemma StaleLine(b: Books, r: MatchRow)
    ensures !Fresh(b, r) ==> InsertLine(b, r) == b
  {
  }

  /** The columns of the update: what each newly written line moves. */
  method Collect(ghost b: Books, rows: seq<MatchRow>, written: seq<string>) returns (ups: seq<Movement>)
    requires OncePerAccount(rows) && written == InsertLines(b, rows).1
    ensures ups == Movements(Written(b, rows))
  {
    hide InsertLines, Written, Movements, MovementOf;
    InsertsStayApart(b, rows);
    var at: map<string, MatchRow> := map[];
    for i := 0 to |rows|
      invariant forall k :: 0 <= k < i ==> rows[k].account in at && at[rows[k].account] == rows[k]
    {
      at := at[rows[i].account := rows[i]];
    }
    ghost var added := Written(b, rows);
    ups := [];
    NoMovements();
    for i := 0 to |written|
      invariant ups == Movements(added[..i])
    {
      assert added[..i + 1] == added[..i] + [added[i]];
      OneMore(b, added[..i], added[i]);
      ups := ups + [MovementOf(at[written[i]])];
    }
    assert added[..|added|] == added;
  }

  lemma NoMovements()
    ensures Movements([]) == []
  {
  }

  class Postgres {
    var books: Books

    constructor (b: Books)
      ensures books == b
    {
      books := b;
    }

    /** Anything that declines leaves the transaction uncommitted, key included. */
    method Apply(e: Entry) returns (r: Result<Receipt, Error>)
      modifies this
      ensures (books, r) == DatabaseApply(old(books), e)
    {
      if e.max > 0 && e.qty > e.max {
        return Err(ItemLimit);
      }
      var tx := books;
      var inserted := InsertKey(tx, e);
      if inserted.1.None? {
        return Err(NoAccount);
      }
      tx := inserted.0;
      if inserted.1.value == 0 {
        if e.account !in tx.profiles {
          return Err(NoAccount);
        }
        return Ok(Receipt(tx.profiles[e.account], Held(tx, e.account, e.item), true));
      }
      var paid := MoveCurrency(tx, e);
      if paid.1.None? {
        return Err(InsufficientFunds);
      }
      tx := paid.0;
      var item := Stack(0, 0);
      if e.item != "" && e.qty == 0 {
        item := Held(tx, e.account, e.item);
      } else if e.item != "" {
        var moved := MoveItem(tx, e);
        if moved.1.Err? {
          return Err(moved.1.error);
        }
        if moved.1.value.None? {
          return Err(ItemLimit);
        }
        tx := moved.0;
        item := moved.1.value.value;
      }
      books := tx;
      r := Ok(Receipt(paid.1.value, item, false));
    }

    method RecordMatch(lines: seq<MatchRow>) returns (n: nat)
      modifies this
      ensures (books, n) == DatabaseRecord(old(books), lines)
    {
      var rows := DedupeByAccount(lines);
      FirstRowsAreFirst(lines);
      LoopIsTheDatabase(books, lines);
      if |rows| == 0 {
        return 0;
      }
      var (tx, written) := InsertLines(books, rows);
      InsertsStayApart(books, rows);
      var ups := Collect(books, rows, written);
      TwoStatementsAreTheLoop(books, rows);
      if |ups| == 0 {
        books := tx;
        return 0;
      }
      tx := tx.(profiles := MoveProfiles(tx.profiles, ups));
      books := tx;
      n := |ups|;
    }
  }

  /** Row after row over the first lines alone is what the database records for all of them. */
  lemma LoopIsTheDatabase(b: Books, lines: seq<MatchRow>)
    ensures MemoryRecord(b, FirstRows(lines)) == DatabaseRecord(b, lines)
  {
    FirstRowsAreFirst(lines);
    var rows := FirstRows(lines);
    FirstIsFirst(rows);
    forall j | 0 <= j < |rows| && rows[j].account in b.profiles
      ensures rows[j].account in FirstByAccount(rows) && rows[j].matchId == FirstByAccount(rows)[rows[j].account].matchId
    {
      var i :| 0 <= i < |rows| && rows[i] == FirstByAccount(rows)[rows[j].account];
    }
    RecordsAgree(b, rows);
  }
}
