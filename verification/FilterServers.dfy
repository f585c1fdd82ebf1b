/** serverbrowser/filter.go: the list of servers a client gets, from the text of its filter. */
module FilterServers {
  import opened MatchCommand
  import opened Qr2Objects
  import opened FilterTokens
  import opened FilterTree
  import opened FilterEval
  import opened FilterMeaning
  import opened FilterNodes
  import opened FilterScanner
  import opened FilterParser
  import opened FilterPrint
  import opened FilterExpression

  type Server = map<string, string>

  /** Escaped: the panic in the recovery of Eval leaves the function.  Unmodelled: the text calls a function. */
  datatype Answer = Servers(list: seq<Server>) | Escaped | Unmodelled

  /** The servers that are looked at. */
  predicate Eligible(server: Server, game: string) {
    && Get(server, "gamename") == game && Get(server, "+deviceauth") == "1"
    && (Get(server, "dwc_mver") == "90" ==> Get(server, "dwc_hoststate") == "0" || Get(server, "dwc_hoststate") == "2")
  }

  function Prepended(kept: seq<Server>, rest: Outcome<seq<Server>>): Outcome<seq<Server>> {
    if rest.Panics() then rest else Value(kept + rest.value)
  }

  /** The loop over the servers; the first one that fails or panics ends it. */
  function Filtered(t: Tree, servers: seq<Server>, game: string, like: (string, string) -> Outcome<int>): Outcome<seq<Server>> {
    if servers == [] then Value([])
    else if !Eligible(servers[0], game) then Filtered(t, servers[1..], game, like)
    else
      var v := Evaluate(Query(servers[0], game, true, like), t);
      if v.Panics() then v.Propagate()
      else Prepended(if v.value != 0 then [servers[0]] else [], Filtered(t, servers[1..], game, like))
  }

  function AnswerOf(r: Outcome<seq<Server>>): Answer {
    match r
    case Value(list) => Servers(list)
    case Failed => Servers([])
    case Crashed => Escaped
  }

  // ---------- What the filters of the client library select

  /** A server is offered to authenticated players of its game; one of matching version 90 if it waits for players or plays. */
  predicate Offered(server: Server, game: string) {
    && (if "gamename" in server then server["gamename"] == game else game == "")
    && "+deviceauth" in server && server["+deviceauth"] == "1"
    && !("dwc_mver" in server && server["dwc_mver"] == "90"
         && ("dwc_hoststate" !in server || (server["dwc_hoststate"] != "0" && server["dwc_hoststate"] != "2")))
  }

  lemma EligibleIs(server: Server, game: string)
    ensures Eligible(server, game) == Offered(server, game)
  {
  }

  /** The servers offered for which every test holds, in order. */
  ghost function Matching(c: Conj, servers: seq<Server>, game: string, like: (string, string) -> Outcome<int>): (r: seq<Server>)
    requires ConjOK(c)
    ensures forall s :: s in r <==> s in servers && Offered(s, game) && AllHold(Query(s, game, true, like), Tests(c))
  {
    if servers == [] then []
    else
      var first := servers[0];
      (if Offered(first, game) && AllHold(Query(first, game, true, like), Tests(c)) then [first] else [])
      + Matching(c, servers[1..], game, like)
  }

  /** Some server offered lacks an integer that a test compares, before any test of it fails. */
  ghost predicate Undecided(c: Conj, servers: seq<Server>, game: string, like: (string, string) -> Outcome<int>)
    requires ConjOK(c)
  {
    exists k :: 0 <= k < |servers| && Offered(servers[k], game) && ConjHolds(Query(servers[k], game, true, like), c).None?
  }

  lemma {:induction false} ItemAllHold(q: Query, i: Item)
    requires ItemOK(i)
    ensures ItemHolds(q, i) == Some(true) <==> AllHold(q, ItemTests(i))
  {
    match i
    case Test(_, _, _) =>
      assert i in ItemTests(i);
    case Nested(c) => ConjAllHold(q, c);
  }

  lemma {:induction false} ConjAllHold(q: Query, c: Conj)
    requires ConjOK(c)
    ensures ConjHolds(q, c) == Some(true) <==> AllHold(q, Tests(c))
  {
    match c
    case One(i) => ItemAllHold(q, i);
    case More(b, _, i) =>
      ConjAllHold(q, b);
      ItemAllHold(q, i);
      assert AllHold(q, Tests(c)) <==> AllHold(q, Tests(b)) && AllHold(q, ItemTests(i));
  }

  lemma UndecidedSplit(c: Conj, servers: seq<Server>, game: string, like: (string, string) -> Outcome<int>)
    requires ConjOK(c) && servers != []
    ensures Undecided(c, servers, game, like) <==>
              (Offered(servers[0], game) && ConjHolds(Query(servers[0], game, true, like), c).None?) || Undecided(c, servers[1..], game, like)
  {
    hide ConjHolds, Offered;
    if Undecided(c, servers[1..], game, like) {
      var k :| 0 <= k < |servers[1..]| && Offered(servers[1..][k], game) && ConjHolds(Query(servers[1..][k], game, true, like), c).None?;
      assert servers[k + 1] == servers[1..][k];
    }
    if Undecided(c, servers, game, like) {
      var k :| 0 <= k < |servers| && Offered(servers[k], game) && ConjHolds(Query(servers[k], game, true, like), c).None?;
      assert k > 0 ==> servers[1..][k - 1] == servers[k];
    }
  }

  /** A tree with the meaning of a list of tests selects the matching servers, unless one cannot be decided. */
  lemma {:induction false} TreeSelects(t: Tree, c: Conj, servers: seq<Server>, game: string, like: (string, string) -> Outcome<int>)
    requires ConjOK(c) && forall q: Query :: Evaluate(q, t) == OutcomeOf(ConjHolds(q, c))
    ensures Filtered(t, servers, game, like) ==
              if Undecided(c, servers, game, like) then Crashed else Value(Matching(c, servers, game, like))
  {
    hide Evaluate, ConjHolds, AllHold, Eligible, Offered, Undecided;
    if servers == [] {
      assert !Undecided(c, servers, game, like) by { NoneUndecided(c, game, like); }
    } else {
      var q := Query(servers[0], game, true, like);
      TreeSelects(t, c, servers[1..], game, like);
      UndecidedSplit(c, servers, game, like);
      ConjAllHold(q, c);
      EligibleIs(servers[0], game);
      assert Evaluate(q, t) == OutcomeOf(ConjHolds(q, c));
      assert [] + Matching(c, servers[1..], game, like) == Matching(c, servers[1..], game, like);
    }
  }

  lemma NoneUndecided(c: Conj, game: string, like: (string, string) -> Outcome<int>)
    requires ConjOK(c)
    ensures !Undecided(c, [], game, like)
  {
  }

  /** From the text of a filter to the servers it selects. */
  lemma PrintedSelects(u: Classes, c: Conj, servers: seq<Server>, game: string, like: (string, string) -> Outcome<int>)
    requires ConjOK(c) && Printable(u, c)
    ensures ParseFrom(u, Print(c), 0, true, START).Accepted?
    ensures var t := Plug(ParseFrom(u, Print(c), 0, true, START).frames);
            AnswerOf(Filtered(t, servers, game, like)) ==
              if Undecided(c, servers, game, like) then Escaped else Servers(Matching(c, servers, game, like))
  {
    hide Undecided, Filtered, ParseFrom, LexFrom, Run, Evaluate, ConjHolds;
    PrintedLexes(u, c);
    ParseIsLexThenRun(u, Print(c), 0, true, START);
    FilterMeans(Query(map[], game, true, like), c);
    var t := Plug(ParseFrom(u, Print(c), 0, true, START).frames);
    forall q: Query
      ensures Evaluate(q, t) == OutcomeOf(ConjHolds(q, c))
    {
      FilterMeans(q, c);
    }
    TreeSelects(t, c, servers, game, like);
  }

  // ---------- The code

  /** filterServersInner on the linked tree. */
  method FilterInner(root: TreeNode, ghost t: Tree, ghost nodes: set<TreeNode>, servers: seq<Server>, game: string,
                     like: (string, string) -> Outcome<int>) returns (r: Outcome<seq<Server>>)
    requires Represents(root, t, nodes)
    ensures r == Filtered(t, servers, game, like)
  {
    hide Represents, NumberOf, Eligible;
    var filtered: seq<Server> := [];
    PrependedNone(Filtered(t, servers, game, like));
    assert servers[0..] == servers && Prepended([], Filtered(t, servers, game, like)) == Filtered(t, servers, game, like);
    for i := 0 to |servers|
      invariant Prepended(filtered, Filtered(t, servers[i..], game, like)) == Filtered(t, servers, game, like)
    {
      assert servers[i..][0] == servers[i] && servers[i..][1..] == servers[i + 1..];
      if !Eligible(servers[i], game) {
        continue;
      }
      var e := new Expression(Query(servers[i], game, true, like));
      var v := e.Eval(root, t, nodes);
      if v.Panics() {
        return v.Propagate();
      }
      if v.value != 0 {
        PrependedTwice(filtered, [servers[i]], Filtered(t, servers[i + 1..], game, like));
        filtered := filtered + [servers[i]];
      } else {
        PrependedTwice(filtered, [], Filtered(t, servers[i + 1..], game, like));
        assert filtered + [] == filtered;
      }
    }
    assert filtered + [] == filtered;
    return Value(filtered);
  }

  lemma PrependedNone(rest: Outcome<seq<Server>>)
    ensures Prepended([], rest) == rest
  {
    if rest.Value? {
      assert [] + rest.value == rest.value;
    }
  }

  lemma PrependedTwice(a: seq<Server>, b: seq<Server>, rest: Outcome<seq<Server>>)
    ensures Prepended(a, Prepended(b, rest)) == Prepended(a + b, rest)
  {
    if rest.Value? {
      assert a + (b + rest.value) == (a + b) + rest.value;
    }
  }

  /**
   filterServers: parse the text, then evaluate the tree for every eligible server.  For a
   printed list of tests the answer is the servers for which all tests hold, unless a field
   that is compared is no integer.
   */
  method FilterServers(u: Classes, servers: seq<Server>, game: string, expression: string, like: (string, string) -> Outcome<int>)
    returns (r: Answer)
    ensures match ParseFrom(u, expression, 0, true, START)
            case Accepted(frames) => r == AnswerOf(Filtered(Plug(frames), servers, game, like))
            case Rejected => r == Servers([])
            case CallsFunction => r == Unmodelled
    ensures forall c :: ConjOK(c) && Printable(u, c) && expression == Print(c) ==>
              r == if Undecided(c, servers, game, like) then Escaped else Servers(Matching(c, servers, game, like))
  {
    hide ParseFrom, Represents, Plug, Filtered, Undecided, Matching, Printable, Print, ConjOK;
    var verdict, root, nodes := Parser.Parse(u, expression);
    if verdict == AtCall {
      r := Unmodelled;
    } else if root == null {
      r := Servers([]);
    } else {
      ghost var t := Plug(ParseFrom(u, expression, 0, true, START).frames);
      var filtered := FilterInner(root, t, nodes, servers, game, like);
      r := AnswerOf(filtered);
    }
    forall c | ConjOK(c) && Printable(u, c) && expression == Print(c)
      ensures r == if Undecided(c, servers, game, like) then Escaped else Servers(Matching(c, servers, game, like))
    {
      PrintedSelects(u, c, servers, game, like);
    }
  }
}
