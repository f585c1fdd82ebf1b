/** qr2/group_info.go: the players of a group in the order they joined. */
module Qr2Info {
  import opened MatchCommand
  import opened Decimal
  import opened Qr2Objects
  import Qr2

  function IndexField(s: Session): string
    reads s
  {
    Get(s.data, "+joinindex")
  }

  /** strconv.Atoi with the error ignored. */
  function IndexValue(x: string): int {
    var v := ParseInt(x);
    if v.None? then 0 else v.value
  }

  ghost predicate Increasing(order: seq<string>) {
    forall i, j :: 0 <= i < j < |order| ==> IndexValue(order[i]) < IndexValue(order[j])
  }

  lemma InsertedMembers(order: seq<string>, i: nat, x: string)
    requires i <= |order|
    ensures var longer := order[..i] + [x] + order[i..];
            forall y :: y in longer <==> y in order || y == x
  {
    var longer := order[..i] + [x] + order[i..];
    assert longer[i] == x;
    assert order == order[..i] + order[i..];
  }

  /** The insertion loop of getGroupsRaw for one more player. */
  method Insert(order: seq<string>, x: string) returns (longer: seq<string>)
    requires Increasing(order)
    ensures Increasing(longer)
    ensures x in longer && forall y :: y in order ==> y in longer
    ensures forall y :: y in longer ==> y in order || y == x
    requires forall y :: y in order && IndexValue(y) == IndexValue(x) ==> y == x
  {
    hide IndexValue;
    var i := 0;
    while i < |order|
      invariant 0 <= i <= |order|
      invariant forall k :: 0 <= k < i ==> IndexValue(order[k]) < IndexValue(x)
    {
      if order[i] == x {
        return order;
      }
      if IndexValue(order[i]) > IndexValue(x) {
        longer := order[..i] + [x] + order[i..];
        InsertedMembers(order, i, x);
        return;
      }
      assert order[i] in order;
      i := i + 1;
    }
    longer := order + [x];
    assert longer[|order|] == x;
  }

  /** The data shown for a player: its own, with two fields from its login. */
  function RawData(s: Session, anybody: bool): map<string, string>
    reads s, if s.login == null then {} else {s.login}
  {
    if s.login == null then s.data["+ingamesn" := ""]["+openhost" := ""]
    else s.data["+ingamesn" := s.login.inGameName]["+openhost" := if anybody then (if s.login.openHost then "true" else "false") else ""]
  }

  /** The player's own fields, its name from the login, and whether it is open to all when anybody may join. */
  ghost predicate Shows(d: map<string, string>, s: Session, anybody: bool)
    reads s, if s.login == null then {} else {s.login}
  {
    && "+ingamesn" in d && "+openhost" in d
    && (s.login == null ==> d["+ingamesn"] == "" && d["+openhost"] == "")
    && (s.login != null ==> d["+ingamesn"] == s.login.inGameName)
    && (s.login != null && anybody ==> d["+openhost"] == if s.login.openHost then "true" else "false")
    && (s.login != null && !anybody ==> d["+openhost"] == "")
    && forall k :: k !in {"+ingamesn", "+openhost"} ==> (k in d <==> k in s.data) && (k in d ==> d[k] == s.data[k])
  }

  lemma RawDataShows(s: Session, anybody: bool)
    ensures Shows(RawData(s, anybody), s, anybody)
  {
    assert "+ingamesn"[1] != "+openhost"[1];
  }

  ghost predicate Distinguished(players: set<Session>)
    reads players
  {
    && (forall p :: p in players ==> p.JoinIndex().Some?)
    && (forall p, q :: p in players && q in players && p != q ==> p.JoinIndex() != q.JoinIndex())
  }

  lemma FieldsDiffer(players: set<Session>, p: Session, q: Session)
    requires Distinguished(players) && p in players && q in players && p != q
    ensures IndexValue(IndexField(p)) != IndexValue(IndexField(q)) && IndexField(p) != IndexField(q)
  {
    assert p.JoinIndex() != q.JoinIndex();
  }

  /** The order lists exactly the players visited so far. */
  ghost predicate Lists(order: seq<string>, visited: set<Session>)
    reads visited
  {
    forall x :: x in order <==> exists p :: p in visited && IndexField(p) == x
  }

  lemma MembersGrow(visited: set<Session>, p: Session, before: seq<string>, after: seq<string>)
    requires Lists(before, visited)
    requires forall x :: x in after <==> x in before || x == IndexField(p)
    ensures Lists(after, visited + {p})
  {
    forall q | q in visited + {p}
      ensures IndexField(q) in after
    {
      assert q != p ==> q in visited;
    }
    forall x | x in after
      ensures exists q :: q in visited + {p} && IndexField(q) == x
    {
      if x in before {
        var q :| q in visited && IndexField(q) == x;
        assert q in visited + {p};
      } else {
        assert p in visited + {p};
      }
    }
  }

  /** A new player ties with nobody listed already. */
  lemma NoTie(players: set<Session>, visited: set<Session>, p: Session, order: seq<string>)
    requires Distinguished(players) && visited <= players && p in players && p !in visited && Lists(order, visited)
    ensures forall y :: y in order ==> IndexValue(y) != IndexValue(IndexField(p))
    ensures forall q :: q in visited ==> IndexField(q) != IndexField(p)
  {
    forall q | q in visited
      ensures IndexValue(IndexField(q)) != IndexValue(IndexField(p)) && IndexField(q) != IndexField(p)
    {
      FieldsDiffer(players, p, q);
    }
  }

  lemma Empty()
    ensures Increasing([]) && Lists([], {})
  {
  }

  /** The players are visited in an arbitrary order; the result does not depend on it. */
  method GroupPlayers(players: set<Session>, anybody: bool) returns (order: seq<string>, raw: map<string, map<string, string>>)
    requires Distinguished(players)
    ensures Increasing(order) && Lists(order, players)
    ensures forall x :: x in raw <==> x in order
    ensures forall i, j :: 0 <= i < j < |order| && ParseInt(order[i]).Some? && ParseInt(order[j]).Some? ==>
              ParseInt(order[i]).value < ParseInt(order[j]).value
    ensures forall p :: p in players ==> IndexField(p) in raw && Shows(raw[IndexField(p)], p, anybody)
  {
    hide IndexValue, IndexField, RawData, Shows, Increasing, Lists, Distinguished;
    Empty();
    order, raw := [], map[];
    var left := players;
    ghost var visited := {};
    while left != {}
      invariant left <= players && visited == players - left
      invariant Increasing(order) && Lists(order, visited)
      invariant forall x :: x in raw <==> x in order
      invariant forall p :: p in visited ==> IndexField(p) in raw && Shows(raw[IndexField(p)], p, anybody)
      decreases left
    {
      var p :| p in left;
      left := left - {p};
      NoTie(players, visited, p, order);
      RawDataShows(p, anybody);
      raw := raw[IndexField(p) := RawData(p, anybody)];
      ghost var before := order;
      order := Insert(order, IndexField(p));
      MembersGrow(visited, p, before, order);
      visited := visited + {p};
    }
    assert visited == players;
    AscendingOf(order);
  }

  lemma AscendingOf(order: seq<string>)
    requires Increasing(order)
    ensures forall i, j :: 0 <= i < j < |order| && ParseInt(order[i]).Some? && ParseInt(order[j]).Some? ==>
              ParseInt(order[i]).value < ParseInt(order[j]).value
  {
    forall i, j | 0 <= i < j < |order| && ParseInt(order[i]).Some? && ParseInt(order[j]).Some?
      ensures ParseInt(order[i]).value < ParseInt(order[j]).value
    {
      assert IndexValue(order[i]) < IndexValue(order[j]);
    }
  }

  lemma HeadIsLeast(a: seq<string>, x: string)
    requires Increasing(a) && x in a
    ensures x == a[0] || IndexValue(a[0]) < IndexValue(x)
  {
    var i :| 0 <= i < |a| && a[i] == x;
  }

  lemma SameHead(a: seq<string>, b: seq<string>)
    requires Increasing(a) && Increasing(b) && a != [] && b != [] && a[0] in b && b[0] in a
    ensures a[0] == b[0]
  {
    HeadIsLeast(a, b[0]);
    HeadIsLeast(b, a[0]);
  }

  lemma TailIncluded(a: seq<string>, b: seq<string>)
    requires Increasing(a) && (forall x :: x in a ==> x in b)
    requires a != [] && b != [] && a[0] == b[0]
    ensures forall x :: x in a[1..] ==> x in b[1..]
  {
    forall x | x in a[1..]
      ensures x in b[1..]
    {
      var i :| 0 <= i < |a[1..]| && a[1..][i] == x;
      assert a[i + 1] == x && IndexValue(a[0]) < IndexValue(a[i + 1]);
      assert x in a;
      var j :| 0 <= j < |b| && b[j] == x;
      assert b[1..][j - 1] == x;
    }
  }

  /** Two orders with these properties are the same. */
  lemma {:induction false} OrderUnique(a: seq<string>, b: seq<string>)
    requires Increasing(a) && Increasing(b) && (forall x :: x in a <==> x in b)
    ensures a == b
  {
    hide IndexValue;
    if a != [] || b != [] {
      assert a != [] ==> a[0] in b;
      assert b != [] ==> b[0] in a;
      SameHead(a, b);
      var a', b' := a[1..], b[1..];
      TailIncluded(a, b);
      TailIncluded(b, a);
      OrderUnique(a', b');
      assert a == [a[0]] + a' && b == [b[0]] + b';
    }
  }

  /** Every listed group of a valid state can be shown this way. */
  lemma ListedGroupsDistinguished(t: Qr2.Tables, n: string)
    requires t.Valid() && n in t.groups
    ensures Distinguished(t.groups[n].players) && t.groups[n].players != {}
  {
    assert t.IndicesOK(t.groups[n]);
    assert t.GroupOK(t.groups[n]);
  }
}
