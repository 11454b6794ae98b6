/**
 The turn scheduler: entries named by match and turn, claimed oldest first. A claimed entry is gone from
 the schedule and an unclaimed one stays, whatever the limit.
 */
module Deadlines {
  import opened Wrappers
  import opened SortedSet

  const MAX_TURN: nat := 0xFFFF_FFFF

  datatype Due = Due(matchId: string, turn: nat)

  function Digit(d: nat): char
    requires d < 10
  {
    '0' + d as char
  }

  function Decimal(n: nat): string {
    if n < 10 then [Digit(n)] else Decimal(n / 10) + [Digit(n % 10)]
  }

  function DueKey(matchId: string, turn: nat): string {
    matchId + "#" + Decimal(turn)
  }

  /** An unsigned decimal of at most 32 bits: digits only, and at least one of them. */
  function ParseUint(s: string): Option<nat> {
    if s == "" then None
    else
      var c := s[|s| - 1];
      if !('0' <= c <= '9') then None
      else
        var d := (c - '0') as nat;
        if |s| == 1 then Some(d)
        else
          match ParseUint(s[..|s| - 1])
          case None => None
          case Some(n) => if 10 * n + d > MAX_TURN then None else Some(10 * n + d)
  }

  /** Splits at the last '#', so a match id may hold any number of them. */
  function ParseDue(s: string): Option<Due> {
    var i := LastHash(s);
    if i < 0 then None
    else
      match ParseUint(s[i + 1..])
      case None => None
      case Some(n) => Some(Due(s[..i], n))
  }

  function LastHash(s: string): (i: int)
    ensures -1 <= i < |s|
  {
    if s == "" then -1 else if s[|s| - 1] == '#' then |s| - 1 else LastHash(s[..|s| - 1])
  }

  lemma {:induction false} DecimalParses(n: nat)
    requires n <= MAX_TURN
    ensures ParseUint(Decimal(n)) == Some(n)
    ensures forall i :: 0 <= i < |Decimal(n)| ==> '0' <= Decimal(n)[i] <= '9'
  {
    if n >= 10 {
      DecimalParses(n / 10);
      var s := Decimal(n);
      assert s[..|s| - 1] == Decimal(n / 10);
      assert 10 * (n / 10) + n % 10 == n;
    }
  }

  lemma {:induction false} LastHashFound(m: string, tail: string)
    requires forall i :: 0 <= i < |tail| ==> tail[i] != '#'
    ensures LastHash(m + "#" + tail) == |m|
  {
    var s := m + "#" + tail;
    if tail == "" {
      assert s == m + "#";
    } else {
      assert s[..|s| - 1] == m + "#" + tail[..|tail| - 1];
      assert s[|s| - 1] == tail[|tail| - 1];
      LastHashFound(m, tail[..|tail| - 1]);
    }
  }

  /** Every armed entry names its match and turn again when it is popped, whatever the match is called. */
  lemma ParseUndoesKey(matchId: string, turn: nat)
    requires turn <= MAX_TURN
    ensures ParseDue(DueKey(matchId, turn)) == Some(Due(matchId, turn))
  {
    DecimalParses(turn);
    LastHashFound(matchId, Decimal(turn));
    var s := DueKey(matchId, turn);
    assert s[..|matchId|] == matchId && s[|matchId| + 1..] == Decimal(turn);
  }

  /** Two entries are one exactly when they are for the same turn of the same match. */
  lemma KeysAreDistinct(m: string, t: nat, n: string, u: nat)
    requires t <= MAX_TURN && u <= MAX_TURN
    ensures DueKey(m, t) == DueKey(n, u) <==> m == n && t == u
  {
    ParseUndoesKey(m, t);
    ParseUndoesKey(n, u);
  }

  function ParsedAll(keys: seq<string>): seq<Due> {
    if keys == [] then []
    else ParsedAll(keys[..|keys| - 1]) + match ParseDue(keys[|keys| - 1]) case None => [] case Some(d) => [d]
  }

  function KeysOf(dues: seq<Due>): seq<string> {
    if dues == [] then [] else KeysOf(dues[..|dues| - 1]) + [DueKey(dues[|dues| - 1].matchId, dues[|dues| - 1].turn)]
  }

  /** What was armed is what is handed out: popping the entries of any turns names exactly those turns, in order. */
  lemma {:induction false} PoppedIsWhatWasArmed(dues: seq<Due>)
    requires forall i :: 0 <= i < |dues| ==> dues[i].turn <= MAX_TURN
    ensures ParsedAll(KeysOf(dues)) == dues
  {
    hide DueKey, ParseDue;
    if dues != [] {
      var n := |dues| - 1;
      PoppedIsWhatWasArmed(dues[..n]);
      ParseUndoesKey(dues[n].matchId, dues[n].turn);
      OneMoreParsed(KeysOf(dues[..n]), DueKey(dues[n].matchId, dues[n].turn));
    }
  }

  lemma OneMoreParsed(keys: seq<string>, key: string)
    ensures ParsedAll(keys + [key]) == ParsedAll(keys) + match ParseDue(key) case None => [] case Some(d) => [d]
  {
    hide ParseDue;
    assert (keys + [key])[..|keys|] == keys;
  }

  /** `popped` is the oldest part of the entries due at `cutoff`, in order, cut to `limit` when there is one. */
  ghost predicate Claimed(at: map<string, int>, cutoff: int, limit: int, popped: seq<string>) {
    && (forall k :: k in popped ==> k in at && at[k] <= cutoff)
    && (forall i, j :: 0 <= i < j < |popped| ==> Before(at, popped[i], popped[j]))
    && (forall k, i :: k in at && at[k] <= cutoff && k !in popped && 0 <= i < |popped| ==> Before(at, popped[i], k))
    && (limit > 0 ==> |popped| <= limit)
    && (limit <= 0 || |popped| < limit ==> forall k :: k in at && at[k] <= cutoff ==> k in popped)
  }

  class MemoryDeadlines {
    var at: map<string, int>

    constructor ()
      ensures at == map[]
    {
      at := map[];
    }

    method Arm(matchId: string, turn: nat, deadline: int)
      modifies this
      ensures at == old(at)[DueKey(matchId, turn) := deadline]
    {
      at := at[DueKey(matchId, turn) := deadline];
    }

    /** Claims expired deadlines oldest first. What is past the limit stays armed for the next sweep. */
    method PopDue(now: int, limit: int) returns (out: seq<Due>, ghost popped: seq<string>)
      modifies this
      ensures Claimed(old(at), now, limit, popped)
      ensures at == old(at) - (set k | k in popped)
      ensures out == ParsedAll(popped)
    {
      hide ParsedAll, Before;
      ghost var was := at;
      var ready := set k | k in at && at[k] <= now;
      out, popped := [], [];
      NothingParsed();
      var claimed := 0;
      while ready != {} && (limit <= 0 || claimed < limit)
        invariant claimed == |popped| && (limit > 0 ==> claimed <= limit)
        invariant Claiming(was, now, popped, ready)
        invariant at == was - (set k | k in popped)
        invariant out == ParsedAll(popped)
        decreases ready
      {
        ghost var oldest := OldestExists(at, ready);
        var times := at;
        var k :| k in ready && forall j :: j in ready && j != k ==> Before(times, k, j);
        at := at - {k};
        match ParseDue(k) {
          case None =>
          case Some(d) => out := out + [d];
        }
        ParsedStep(popped, k);
        ClaimStep(was, now, times, popped, ready, k);
        popped := popped + [k];
        ready := ready - {k};
        claimed := claimed + 1;
      }
    }
  }

  lemma NothingParsed()
    ensures ParsedAll([]) == []
  {
  }

  lemma ParsedStep(popped: seq<string>, k: string)
    ensures ParsedAll(popped + [k]) == ParsedAll(popped) + match ParseDue(k) case None => [] case Some(d) => [d]
  {
    assert (popped + [k])[..|popped|] == popped;
  }

  /** Part of the way through a pass: what is claimed is older than everything still ready. */
  ghost predicate Claiming(at: map<string, int>, cutoff: int, popped: seq<string>, ready: set<string>) {
    && (forall k :: k in ready <==> k in at && at[k] <= cutoff && k !in popped)
    && (forall k :: k in popped ==> k in at && at[k] <= cutoff)
    && (forall i, j :: 0 <= i < j < |popped| ==> Before(at, popped[i], popped[j]))
    && (forall k, i :: k in ready && 0 <= i < |popped| ==> Before(at, popped[i], k))
  }

  lemma ClaimStep(at: map<string, int>, cutoff: int, left: map<string, int>, popped: seq<string>, ready: set<string>, k: string)
    requires Claiming(at, cutoff, popped, ready) && left == at - (set j | j in popped)
    requires k in ready && forall j :: j in ready && j != k ==> Before(left, k, j)
    ensures Claiming(at, cutoff, popped + [k], ready - {k})
    ensures left - {k} == at - (set j | j in popped + [k])
  {
    var more := popped + [k];
    forall j
      ensures j in more <==> j in popped || j == k
    {
      if j == k {
        assert more[|popped|] == k;
      }
      if j in popped {
        var i :| 0 <= i < |popped| && popped[i] == j;
        assert more[i] == j;
      }
    }
    forall j | j in ready && j != k
      ensures Before(at, k, j)
    {
      assert Before(left, k, j);
    }
  }
}
