/**
 Lists of entities kept strictly ascending by id, and the map such a list stands for.

 Every list the replication protocol walks as a sorted merge is one of these. `ById` is the
 map a list denotes and `Ascend` is the one ascending list that denotes a given map, so a merge
 can be specified by what it does to maps and still be pinned down element for element.
 */
module Keyed {
  datatype Entity<+V> = Entity(id: nat, v: V)

  ghost predicate Ascending<V>(s: seq<Entity<V>>) {
    forall i, j :: 0 <= i < j < |s| ==> s[i].id < s[j].id
  }

  ghost predicate AscendingIds(s: seq<nat>) {
    forall i, j :: 0 <= i < j < |s| ==> s[i] < s[j]
  }

  ghost function ById<V>(s: seq<Entity<V>>): map<nat, V> {
    if s == [] then map[] else ById(s[..|s| - 1])[s[|s| - 1].id := s[|s| - 1].v]
  }

  lemma ByIdEmpty<V>()
    ensures ById<V>([]) == map[]
  {
  }

  lemma ByIdAppend<V>(s: seq<Entity<V>>, e: Entity<V>)
    ensures ById(s + [e]) == ById(s)[e.id := e.v]
  {
    assert (s + [e])[..|s|] == s;
  }

  lemma {:induction false} ByIdKeys<V>(s: seq<Entity<V>>, id: nat)
    ensures id in ById(s) <==> exists i :: 0 <= i < |s| && s[i].id == id
  {
    if s != [] {
      var p := s[..|s| - 1];
      ByIdKeys(p, id);
      assert forall i :: 0 <= i < |p| ==> p[i] == s[i];
      if s[|s| - 1].id == id {
        assert s[|s| - 1].id == id;
      }
    }
  }

  lemma {:induction false} ByIdAt<V>(s: seq<Entity<V>>, i: nat)
    requires Ascending(s) && i < |s|
    ensures s[i].id in ById(s) && ById(s)[s[i].id] == s[i].v
  {
    var p := s[..|s| - 1];
    if i < |p| {
      assert Ascending(p);
      ByIdAt(p, i);
      assert p[i] == s[i];
    }
  }

  lemma AscendingAppend<V>(s: seq<Entity<V>>, e: Entity<V>)
    requires Ascending(s)
    requires forall id :: id in ById(s) ==> id < e.id
    ensures Ascending(s + [e])
  {
    forall i | 0 <= i < |s|
      ensures s[i].id < e.id
    {
      ByIdAt(s, i);
    }
  }

  /** An ascending list is determined by the map it denotes. */
  lemma {:induction false} Extensional<V>(s: seq<Entity<V>>, t: seq<Entity<V>>)
    requires Ascending(s) && Ascending(t) && ById(s) == ById(t)
    ensures s == t
    decreases |s|
  {
    if s == [] || t == [] {
      if s != [] {
        ByIdAt(s, 0);
      }
      if t != [] {
        ByIdAt(t, 0);
      }
    } else {
      var i, j := |s| - 1, |t| - 1;
      SameLast(s, t);
      DropLast(s);
      DropLast(t);
      Extensional(s[..i], t[..j]);
      hide Ascending, ById;
      assert s == s[..i] + [s[i]] && t == t[..j] + [t[j]];
    }
  }

  lemma SameLast<V>(s: seq<Entity<V>>, t: seq<Entity<V>>)
    requires Ascending(s) && Ascending(t) && ById(s) == ById(t) && s != [] && t != []
    ensures s[|s| - 1] == t[|t| - 1]
  {
    var i, j := |s| - 1, |t| - 1;
    ByIdAt(s, i);
    ByIdAt(t, j);
    ByIdKeys(s, t[j].id);
    ByIdKeys(t, s[i].id);
  }

  lemma DropLast<V>(s: seq<Entity<V>>)
    requires Ascending(s) && s != []
    ensures Ascending(s[..|s| - 1])
    ensures ById(s[..|s| - 1]) == ById(s) - {s[|s| - 1].id}
  {
    var p, last := s[..|s| - 1], s[|s| - 1];
    ByIdKeys(p, last.id);
    forall id | id in ById(p)
      ensures id != last.id
    {
      ByIdKeys(p, id);
    }
  }

  /** One more element of an ascending list is one larger key of its map. */
  lemma PrefixStep<V>(s: seq<Entity<V>>, k: nat)
    requires Ascending(s) && k < |s|
    ensures ById(s[..k + 1]) == ById(s[..k])[s[k].id := s[k].v]
    ensures forall id :: id in ById(s[..k]) ==> id < s[k].id
  {
    assert s[..k + 1] == s[..k] + [s[k]];
    ByIdAppend(s[..k], s[k]);
    forall id | id in ById(s[..k])
      ensures id < s[k].id
    {
      ByIdKeys(s[..k], id);
    }
  }

  lemma MaxKey(keys: set<nat>) returns (k: nat)
    requires keys != {}
    ensures k in keys && forall j :: j in keys ==> j <= k
  {
    var x :| x in keys;
    k := x;
    var rest := keys - {x};
    if rest != {} {
      var m := MaxKey(rest);
      k := if m > x then m else x;
    }
    assert forall j :: j in keys ==> j == x || j in rest;
  }

  ghost function Largest<V>(m: map<nat, V>): (k: nat)
    requires m != map[]
    ensures k in m && forall j :: j in m ==> j <= k
  {
    assert m.Keys != {};
    assert exists k: nat :: k in m && forall j :: j in m ==> j <= k by {
      var k := MaxKey(m.Keys);
    }
    var k: nat :| k in m && forall j :: j in m ==> j <= k;
    k
  }

  lemma WithoutIsSmaller<V>(m: map<nat, V>, k: nat)
    requires k in m
    ensures |m - {k}| < |m| && (m - {k})[k := m[k]] == m
  {
    var rest := m - {k};
    assert rest.Keys == m.Keys - {k};
    assert |rest| == |rest.Keys| && |m| == |m.Keys|;
  }

  /** The ascending list that denotes `m`. */
  ghost function Ascend<V>(m: map<nat, V>): seq<Entity<V>>
    decreases |m|
  {
    if m == map[] then []
    else
      var k := Largest(m);
      WithoutIsSmaller(m, k);
      Ascend(m - {k}) + [Entity(k, m[k])]
  }

  lemma {:induction false} AscendDenotes<V>(m: map<nat, V>)
    ensures Ascending(Ascend(m)) && ById(Ascend(m)) == m
    decreases |m|
  {
    if m != map[] {
      var k := Largest(m);
      WithoutIsSmaller(m, k);
      AscendDenotes(m - {k});
      var s := Ascend(m - {k});
      ByIdAppend(s, Entity(k, m[k]));
      AscendingAppend(s, Entity(k, m[k]));
    }
  }

  /** Recognising the canonical list of a map. */
  lemma IsAscend<V>(s: seq<Entity<V>>, m: map<nat, V>)
    requires Ascending(s) && ById(s) == m
    ensures s == Ascend(m)
  {
    AscendDenotes(m);
    Extensional(s, Ascend(m));
  }
}
