/** Members with scores, in the order a sorted set keeps them: by score, ties by member. */
module SortedSet {
  import Lex

  predicate Before(at: map<string, int>, a: string, b: string)
    requires a in at && b in at
  {
    at[a] < at[b] || (at[a] == at[b] && Lex.Less(a, b))
  }

  /** The first of any members. */
  lemma OldestExists(at: map<string, int>, ready: set<string>) returns (k: string)
    requires ready != {} && ready <= at.Keys
    ensures k in ready && forall j :: j in ready && j != k ==> Before(at, k, j)
  {
    var x :| x in ready;
    k := x;
    var rest := ready - {x};
    assert forall j :: j in ready && j != x ==> j in rest;
    if rest != {} {
      var y := OldestExists(at, rest);
      Lex.Total(x, y);
      k := if Before(at, x, y) then x else y;
      forall j | j in ready && j != k
        ensures Before(at, k, j)
      {
        if k == x && j != y {
          BeforeTransitive(at, x, y, j);
        }
      }
    }
  }

  lemma BeforeTransitive(at: map<string, int>, a: string, b: string, c: string)
    requires a in at && b in at && c in at && Before(at, a, b) && Before(at, b, c)
    ensures Before(at, a, c)
  {
    if at[a] == at[b] == at[c] {
      Lex.Transitive(a, b, c);
    }
  }

  /** All members, first to last. */
  ghost function Range(at: map<string, int>): seq<string>
    decreases |at|
  {
    if at == map[] then []
    else
      var k := First(at);
      Smaller(at, k);
      [k] + Range(at - {k})
  }

  ghost function First(at: map<string, int>): (k: string)
    requires at != map[]
    ensures k in at && forall j :: j in at && j != k ==> Before(at, k, j)
  {
    assert at.Keys != {};
    assert exists k :: k in at && forall j :: j in at && j != k ==> Before(at, k, j) by {
      var k := OldestExists(at, at.Keys);
    }
    var k :| k in at && forall j :: j in at && j != k ==> Before(at, k, j);
    k
  }

  lemma Smaller(at: map<string, int>, k: string)
    requires k in at
    ensures |at - {k}| < |at|
  {
    var rest := at - {k};
    assert rest.Keys == at.Keys - {k};
    assert |rest| == |rest.Keys| && |at| == |at.Keys|;
  }

  /** The members in order, each once. */
  ghost predicate IsRange(at: map<string, int>, s: seq<string>) {
    && (forall k :: k in s <==> k in at)
    && (forall i, j :: 0 <= i < j < |s| ==> Before(at, s[i], s[j]))
  }

  lemma {:induction false} RangeIsRange(at: map<string, int>)
    ensures IsRange(at, Range(at))
    decreases |at|
  {
    if at != map[] {
      var k := First(at);
      Smaller(at, k);
      var rest := at - {k};
      RangeIsRange(rest);
      var r := Range(rest);
      assert Range(at) == [k] + r;
      forall i, j | 0 <= i < j < |r|
        ensures r[i] in at && r[j] in at && Before(at, r[i], r[j])
      {
        assert r[i] in r && r[j] in r && Before(rest, r[i], r[j]);
      }
      forall j | 0 <= j < |r|
        ensures r[j] in at && Before(at, k, r[j])
      {
        assert r[j] in r;
      }
    }
  }
}
