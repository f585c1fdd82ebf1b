/** common/gamespy_message.go: backslash messages, without the binary data of game statistics. */
module GameSpyMessage {
  import opened MatchCommand

  datatype Command = Command(name: string, value: string, others: map<string, string>)

  datatype Pair = Pair(key: string, value: string)

  const FINAL := "\\final\\"

  // ---------- Searching

  predicate At(s: string, k: nat, sub: string) {
    k + |sub| <= |s| && s[k..k + |sub|] == sub
  }

  ghost predicate Contains(s: string, sub: string) {
    exists k :: At(s, k, sub)
  }

  /** strings.Contains, position by position. */
  method Find(s: string, sub: string) returns (found: bool)
    ensures found == Contains(s, sub)
  {
    for k := 0 to |s| + 1
      invariant forall j :: 0 <= j < k ==> !At(s, j, sub)
    {
      if At(s, k, sub) {
        return true;
      }
    }
    return false;
  }

  /** The first backslash, or the length where there is none. */
  function Backslash(s: string): (k: nat)
    ensures k <= |s| && (k < |s| ==> s[k] == '\\') && '\\' !in s[..k]
  {
    if s == "" || s[0] == '\\' then 0
    else
      var k := Backslash(s[1..]);
      assert s[..1 + k] == [s[0]] + s[1..][..k];
      1 + k
  }

  // ---------- What a message means

  datatype Scan = Scan(pairs: seq<Pair>, rest: string) | Invalid

  predicate Starts(msg: string) {
    msg != "" && msg[0] == '\\'
  }

  /** The value at the front, and what the next key is looked for in. */
  function TakeValue(msg: string): (r: (string, string))
    ensures |r.1| <= |msg|
  {
    if '\\' !in msg then (msg, msg) else (msg[..Backslash(msg)], msg[Backslash(msg)..])
  }

  /** The keys and values of one command, up to and with its final key. */
  function Pairs(msg: string): (r: Scan)
    ensures r.Scan? ==> |r.rest| <= |msg| && (Starts(msg) ==> |r.rest| < |msg|)
    decreases |msg|
  {
    if !Starts(msg) then Scan([], msg)
    else
      var keyEnd := Backslash(msg[1..]) + 1;
      if keyEnd == |msg| || keyEnd < 2 then Invalid
      else
        var key, rest := msg[1..keyEnd], msg[keyEnd + 1..];
        if key == "final" then Scan([], rest)
        else
          var v := TakeValue(rest);
          var more := Pairs(v.1);
          if more.Invalid? then Invalid else Scan([Pair(key, v.0)] + more.pairs, more.rest)
  }

  function Others(pairs: seq<Pair>): map<string, string> {
    if pairs == [] then map[] else Others(pairs[..|pairs| - 1])[pairs[|pairs| - 1].key := pairs[|pairs| - 1].value]
  }

  function CommandOf(pairs: seq<Pair>): Command {
    if pairs == [] then Command("", "", map[]) else Command(pairs[0].key, pairs[0].value, Others(pairs[1..]))
  }

  ghost function Commands(msg: string): Option<seq<Command>>
    decreases |msg|
  {
    if !Starts(msg) || !Contains(msg, FINAL) then Some([])
    else
      var s := Pairs(msg);
      if s.Invalid? then None
      else
        var more := Commands(s.rest);
        if more.None? then None else Some([CommandOf(s.pairs)] + more.value)
  }

  ghost function Parsed(msg: string): Option<seq<Command>> {
    if !Contains(msg, FINAL) then None else Commands(msg)
  }

  // ---------- The parser

  function Prepend(pairs: seq<Pair>, s: Scan): Scan {
    if s.Invalid? then s else Scan(pairs + s.pairs, s.rest)
  }

  /** The inner loop; the result is null for an invalid message.  No index is out of range on any text. */
  method ParseCommand(message: string) returns (g: Option<Command>, msg: string)
    ensures match Pairs(message)
            case Invalid => g.None?
            case Scan(pairs, rest) => g == Some(CommandOf(pairs)) && msg == rest
  {
    msg := message;
    var foundCommand := false;
    var name, commandValue, others := "", "", map[];
    ghost var done: seq<Pair> := [];
    while Starts(msg)
      invariant foundCommand == (done != []) && CommandOf(done) == Command(name, commandValue, others)
      invariant Pairs(message) == Prepend(done, Pairs(msg))
      decreases |msg|
    {
      var keyEnd := Backslash(msg[1..]) + 1;
      if keyEnd == |msg| || keyEnd < 2 {
        return None, msg;
      }
      var key := msg[1..keyEnd];
      var value := "";
      ghost var before := msg;
      msg := msg[keyEnd + 1..];
      if key == "final" {
        assert done + [] == done;
        return Some(Command(name, commandValue, others)), msg;
      }
      ghost var after := msg;
      if '\\' in msg {
        if msg[0] != '\\' {
          var valueEnd := Backslash(msg[1..]);
          value := msg[..valueEnd + 1];
          msg := msg[valueEnd + 1..];
        }
      } else {
        value := msg;
      }
      assert TakeValue(after) == (value, msg);
      PrependMore(done, Pair(key, value), Pairs(msg));
      CommandMore(done, Pair(key, value));
      done := done + [Pair(key, value)];
      if !foundCommand {
        name := key;
        commandValue := value;
        foundCommand := true;
      } else {
        others := others[key := value];
      }
    }
    assert done + [] == done;
    return Some(Command(name, commandValue, others)), msg;
  }

  lemma PrependMore(done: seq<Pair>, p: Pair, s: Scan)
    ensures Prepend(done, Prepend([p], s)) == Prepend(done + [p], s)
  {
    if s.Scan? {
      assert done + ([p] + s.pairs) == (done + [p]) + s.pairs;
    }
  }

  lemma CommandMore(done: seq<Pair>, p: Pair)
    ensures CommandOf(done + [p]) ==
              if done == [] then Command(p.key, p.value, map[])
              else CommandOf(done).(others := CommandOf(done).others[p.key := p.value])
  {
    if done != [] {
      assert (done + [p])[1..] == done[1..] + [p];
      assert (done[1..] + [p])[..|done[1..]|] == done[1..];
    }
  }

  function After(list: seq<Command>, more: Option<seq<Command>>): Option<seq<Command>> {
    if more.None? then None else Some(list + more.value)
  }

  lemma AfterMore(list: seq<Command>, g: Command, more: Option<seq<Command>>)
    ensures After(list, After([g], more)) == After(list + [g], more)
  {
    if more.Some? {
      assert list + ([g] + more.value) == (list + [g]) + more.value;
    }
  }

  lemma CommandsStep(msg: string)
    requires Starts(msg) && Contains(msg, FINAL)
    ensures Commands(msg) == match Pairs(msg)
                             case Invalid => None
                             case Scan(pairs, rest) => After([CommandOf(pairs)], Commands(rest))
  {
  }

  method ParseGameSpyMessage(message: string) returns (commands: Option<seq<Command>>)
    ensures commands == Parsed(message)
  {
    var valid := Find(message, FINAL);
    if !valid {
      return None;
    }
    var msg := message;
    var list: seq<Command> := [];
    var more := Starts(msg);
    assert Commands(message).Some? ==> [] + Commands(message).value == Commands(message).value;
    while more
      invariant more == (Starts(msg) && Contains(msg, FINAL))
      invariant Commands(message) == After(list, Commands(msg))
      decreases |msg|
    {
      CommandsStep(msg);
      var g;
      g, msg := ParseCommand(msg);
      if g.None? {
        return None;
      }
      AfterMore(list, g.value, Commands(msg));
      list := list + [g.value];
      more := Find(msg, FINAL);
      more := more && Starts(msg);
    }
    assert list + [] == list;
    return Some(list);
  }

  // ---------- The printer

  function PrintPair(p: Pair): string {
    "\\" + p.key + "\\" + p.value
  }

  function PrintPairs(pairs: seq<Pair>): string {
    if pairs == [] then "" else PrintPairs(pairs[..|pairs| - 1]) + PrintPair(pairs[|pairs| - 1])
  }

  predicate HasKey(pairs: seq<Pair>, k: string) {
    exists i :: 0 <= i < |pairs| && pairs[i].key == k
  }

  /** The pairs list every key of the map once, in some order. */
  ghost predicate Lists(pairs: seq<Pair>, others: map<string, string>) {
    && (forall i :: 0 <= i < |pairs| ==> pairs[i].key in others && others[pairs[i].key] == pairs[i].value)
    && (forall i, j :: 0 <= i < j < |pairs| ==> pairs[i].key != pairs[j].key)
    && (forall k :: k in others ==> HasKey(pairs, k))
  }

  /** What a command looks like printed, with its other values in this order. */
  function Printed(c: Command, order: seq<Pair>): string {
    (if c.name != "" then PrintPair(Pair(c.name, c.value)) else "") + PrintPairs(order) + FINAL
  }

  predicate PutLast(c: Command, key: string) {
    c.name == "getpdr" && key == "data"
  }

  lemma {:induction false} PrintPairsJoins(a: seq<Pair>, b: seq<Pair>)
    ensures PrintPairs(a + b) == PrintPairs(a) + PrintPairs(b)
  {
    if b == [] {
      assert a + b == a;
    } else {
      assert (a + b)[..|a + b| - 1] == a + b[..|b| - 1];
      PrintPairsJoins(a, b[..|b| - 1]);
    }
  }

  lemma SplicedApart(a: seq<Pair>, b: seq<Pair>, p: Pair, i: nat, j: nat)
    requires forall i, j :: 0 <= i < j < |a + b| ==> (a + b)[i].key != (a + b)[j].key
    requires forall i :: 0 <= i < |a + b| ==> (a + b)[i].key != p.key
    requires i < j < |a + [p] + b|
    ensures (a + [p] + b)[i].key != (a + [p] + b)[j].key
  {
    var x, y := if i < |a| then i else i - 1, if j < |a| then j else j - 1;
    if i != |a| && j != |a| {
      assert (a + b)[x].key != (a + b)[y].key;
    } else if i == |a| {
      assert (a + [p] + b)[j] == (a + b)[y];
    } else {
      assert (a + [p] + b)[i] == (a + b)[x];
    }
  }

  lemma HasKeySpliced(a: seq<Pair>, b: seq<Pair>, p: Pair, k: string)
    requires HasKey(a + b, k) || k == p.key
    ensures HasKey(a + [p] + b, k)
  {
    var longer := a + [p] + b;
    if k == p.key {
      assert longer[|a|].key == k;
    } else {
      var i :| 0 <= i < |a + b| && (a + b)[i].key == k;
      assert longer[if i < |a| then i else i + 1].key == k;
    }
  }

  lemma ListsInsert(a: seq<Pair>, b: seq<Pair>, p: Pair, m: map<string, string>)
    requires Lists(a + b, m) && p.key !in m
    ensures Lists(a + [p] + b, m[p.key := p.value])
  {
    hide HasKey;
    var longer, more := a + [p] + b, m[p.key := p.value];
    forall i, j | 0 <= i < j < |longer|
      ensures longer[i].key != longer[j].key
    {
      SplicedApart(a, b, p, i, j);
    }
    forall k | k in more
      ensures HasKey(longer, k)
    {
      HasKeySpliced(a, b, p, k);
    }
    forall i | 0 <= i < |longer|
      ensures longer[i].key in more && more[longer[i].key] == longer[i].value
    {
      assert longer[i] == if i < |a| then (a + b)[i] else if i == |a| then p else (a + b)[i - 1];
    }
  }

  /** The message prints every value once, in this order, and the data of getpdr last. */
  ghost predicate PrintsInOrder(c: Command, order: seq<Pair>, message: string) {
    && Lists(order, c.others) && message == Printed(c, order)
    && (c.name == "getpdr" && "data" in c.others ==> order != [] && order[|order| - 1].key == "data")
  }

  /** Goes through the map in an arbitrary order, but for the data of getpdr, which comes last. */
  method CreateGameSpyMessage(command: Command) returns (message: string)
    ensures exists order :: PrintsInOrder(command, order, message)
  {
    hide Lists, PrintPair, PrintPairs, HasKey;
    var query, endQuery := "", "";
    ghost var early: seq<Pair>, late: seq<Pair> := [], [];
    var left := command.others.Keys;
    NoPairs();
    assert early + late == [];
    ghost var seen: map<string, string> := map[];
    while left != {}
      invariant left <= command.others.Keys
      invariant query == PrintPairs(early) && endQuery == PrintPairs(late)
      invariant forall i :: 0 <= i < |early| ==> !PutLast(command, early[i].key)
      invariant forall i :: 0 <= i < |late| ==> PutLast(command, late[i].key)
      invariant Lists(early + late, seen) && seen.Keys == command.others.Keys - left
      invariant forall k :: k in seen ==> seen[k] == command.others[k]
      decreases left
    {
      var k :| k in left;
      ghost var p := Pair(k, command.others[k]);
      left := left - {k};
      OnePair(p);
      if PutLast(command, k) {
        PrintPairsJoins(late, [p]);
        assert early + late + [] == early + late;
        ListsInsert(early + late, [], p, seen);
        assert early + late + [p] + [] == early + (late + [p]);
        endQuery := endQuery + PrintPair(Pair(k, command.others[k]));
        late := late + [p];
      } else {
        PrintPairsJoins(early, [p]);
        ListsInsert(early, late, p, seen);
        query := query + PrintPair(Pair(k, command.others[k]));
        early := early + [p];
      }
      seen := seen[k := p.value];
    }
    assert seen == command.others;
    ghost var order := early + late;
    PrintPairsJoins(early, late);
    LastOne(command, early, late);
    query := query + endQuery;
    if command.name != "" {
      query := PrintPair(Pair(command.name, command.value)) + query;
    }
    message := query + FINAL;
    assert PrintsInOrder(command, order, message);
  }

  lemma NoPairs()
    ensures PrintPairs([]) == "" && Lists([], map[])
  {
  }

  lemma LastOne(command: Command, early: seq<Pair>, late: seq<Pair>)
    requires Lists(early + late, command.others)
    requires forall i :: 0 <= i < |early| ==> !PutLast(command, early[i].key)
    requires forall i :: 0 <= i < |late| ==> PutLast(command, late[i].key)
    ensures command.name == "getpdr" && "data" in command.others ==>
              early + late != [] && (early + late)[|early + late| - 1].key == "data"
  {
    if command.name == "getpdr" && "data" in command.others {
      assert late != [] by {
        assert forall i :: 0 <= i < |early| ==> (early + late)[i] == early[i];
        assert HasKey(early + late, "data");
      }
    }
  }

  lemma OnePair(p: Pair)
    ensures PrintPairs([p]) == PrintPair(p)
  {
    assert [p][..0] == [];
  }

  // ---------- What is printed is what is parsed

  /** Texts a message can carry: no backslashes, and keys that are neither empty nor "final". */
  predicate PlainPair(p: Pair) {
    p.key != "" && p.key != "final" && '\\' !in p.key && '\\' !in p.value
  }

  predicate Plain(c: Command) {
    PlainPair(Pair(c.name, c.value)) && forall k :: k in c.others ==> PlainPair(Pair(k, c.others[k]))
  }

  lemma {:induction false} BackslashAfter(s: string, rest: string)
    requires '\\' !in s && Starts(rest)
    ensures Backslash(s + rest) == |s|
  {
    if s == "" {
      assert s + rest == rest;
    } else {
      assert (s + rest)[1..] == s[1..] + rest;
      BackslashAfter(s[1..], rest);
    }
  }

  lemma TakeKey(key: string, rest: string)
    requires '\\' !in key && key != ""
    ensures var msg := "\\" + key + "\\" + rest;
            var keyEnd := Backslash(msg[1..]) + 1;
            keyEnd == |key| + 1 < |msg| && msg[1..keyEnd] == key && msg[keyEnd + 1..] == rest
  {
    var msg := "\\" + key + "\\" + rest;
    assert msg[1..] == key + ("\\" + rest);
    BackslashAfter(key, "\\" + rest);
  }

  lemma TakePlainValue(value: string, tail: string)
    requires '\\' !in value && Starts(tail)
    ensures TakeValue(value + tail) == (value, tail)
  {
    BackslashAfter(value, tail);
    assert (value + tail)[|value|] == '\\';
    assert (value + tail)[..|value|] == value && (value + tail)[|value|..] == tail;
  }

  /** One key and value in front of something that starts with a backslash. */
  lemma PairsStep(p: Pair, tail: string)
    requires PlainPair(p) && Starts(tail)
    ensures Pairs(PrintPair(p) + tail) == Prepend([p], Pairs(tail))
  {
    hide TakeValue, Backslash;
    var rest := p.value + tail;
    assert PrintPair(p) + tail == "\\" + p.key + "\\" + rest;
    TakeKey(p.key, rest);
    TakePlainValue(p.value, tail);
  }

  lemma FinalEnds(rest: string)
    ensures Pairs(FINAL + rest) == Scan([], rest)
  {
    assert FINAL + rest == "\\" + "final" + "\\" + rest;
    TakeKey("final", rest);
  }

  lemma {:induction false} PairsOfPrinted(pairs: seq<Pair>, rest: string)
    requires forall i :: 0 <= i < |pairs| ==> PlainPair(pairs[i])
    ensures Pairs(PrintPairs(pairs) + FINAL + rest) == Scan(pairs, rest)
    decreases |pairs|
  {
    hide Pairs, PlainPair, PrintPair;
    if pairs == [] {
      FinalEnds(rest);
      assert PrintPairs(pairs) + FINAL + rest == FINAL + rest;
    } else {
      var p := pairs[0];
      var tail := PrintPairs(pairs[1..]) + FINAL + rest;
      PairsOfPrinted(pairs[1..], rest);
      PrintPairsJoins([p], pairs[1..]);
      OnePair(p);
      assert [p] + pairs[1..] == pairs;
      assert PrintPairs(pairs) + FINAL + rest == PrintPair(p) + tail;
      StartsPrinted(pairs[1..], rest);
      PairsStep(p, tail);
    }
  }

  lemma {:induction false} StartsPrinted(pairs: seq<Pair>, rest: string)
    ensures Starts(PrintPairs(pairs) + FINAL + rest)
    decreases |pairs|
  {
    if pairs != [] {
      StartsPrinted(pairs[..|pairs| - 1], rest);
      if |pairs| == 1 {
        OnePair(pairs[0]);
        assert pairs == [pairs[0]];
      } else {
        OneMore(pairs[..|pairs| - 1]);
      }
    }
  }

  lemma {:induction false} OneMore(pairs: seq<Pair>)
    requires pairs != []
    ensures Starts(PrintPairs(pairs))
    decreases |pairs|
  {
    if |pairs| > 1 {
      OneMore(pairs[..|pairs| - 1]);
    } else {
      OnePair(pairs[0]);
      assert pairs == [pairs[0]];
    }
  }

  lemma {:induction false} OthersOfList(pairs: seq<Pair>, others: map<string, string>)
    requires Lists(pairs, others)
    ensures Others(pairs) == others
    decreases |pairs|
  {
    if pairs != [] {
      var last := pairs[|pairs| - 1];
      var fewer := others - {last.key};
      forall k | k in fewer
        ensures HasKey(pairs[..|pairs| - 1], k)
      {
        assert HasKey(pairs, k);
        var i :| 0 <= i < |pairs| && pairs[i].key == k;
        assert pairs[..|pairs| - 1][i].key == k;
      }
      OthersOfList(pairs[..|pairs| - 1], fewer);
      assert fewer[last.key := last.value] == others;
    }
  }

  /** One printed command at the front of a text, its values in any order. */
  lemma PrintedParses(c: Command, order: seq<Pair>, rest: string)
    requires Plain(c) && Lists(order, c.others)
    ensures var msg := Printed(c, order) + rest;
            Starts(msg) && Contains(msg, FINAL) && Pairs(msg).Scan? && Pairs(msg).rest == rest && CommandOf(Pairs(msg).pairs) == c
  {
    var first := Pair(c.name, c.value);
    var pairs := [first] + order;
    var msg := Printed(c, order) + rest;
    PrintPairsJoins([first], order);
    OnePair(first);
    assert msg == PrintPairs(pairs) + FINAL + rest;
    PairsOfPrinted(pairs, rest);
    OneMore(pairs);
    assert At(msg, |PrintPairs(pairs)|, FINAL);
    assert pairs[1..] == order;
    OthersOfList(order, c.others);
  }

  /** What the parser makes of a final key alone. */
  const NOTHING := Command("", "", map[])

  lemma FirstKey(order: seq<Pair>, others: map<string, string>)
    requires Lists(order, others)
    ensures order != [] ==> order[0].key in others
  {
  }

  lemma NothingParses(order: seq<Pair>, rest: string)
    requires Lists(order, map[])
    ensures var msg := Printed(NOTHING, order) + rest;
            Starts(msg) && Contains(msg, FINAL) && Pairs(msg) == Scan([], rest)
  {
    FirstKey(order, map[]);
    assert Printed(NOTHING, order) == FINAL;
    assert At(FINAL + rest, 0, FINAL);
    FinalEnds(rest);
  }

  /** The commands that survive printing and parsing. */
  predicate Carried(c: Command) {
    Plain(c) || c == NOTHING
  }

  lemma CarriedParses(c: Command, order: seq<Pair>, rest: string)
    requires Carried(c) && Lists(order, c.others)
    ensures var msg := Printed(c, order) + rest;
            Starts(msg) && Contains(msg, FINAL) && Pairs(msg).Scan? && Pairs(msg).rest == rest && CommandOf(Pairs(msg).pairs) == c
  {
    hide Pairs, Contains, Printed, Lists;
    if Plain(c) {
      PrintedParses(c, order, rest);
    } else {
      NothingParses(order, rest);
    }
  }

  function PrintedAll(list: seq<Command>, orders: seq<seq<Pair>>): string
    requires |orders| == |list|
  {
    if list == [] then "" else Printed(list[0], orders[0]) + PrintedAll(list[1..], orders[1..])
  }

  lemma {:induction false} CommandsOfPrinted(list: seq<Command>, orders: seq<seq<Pair>>)
    requires |orders| == |list|
    requires forall i :: 0 <= i < |list| ==> Carried(list[i]) && Lists(orders[i], list[i].others)
    ensures Commands(PrintedAll(list, orders)) == Some(list)
    decreases |list|
  {
    hide Carried, Lists, Printed;
    if list != [] {
      CommandsOfPrinted(list[1..], orders[1..]);
      CarriedParses(list[0], orders[0], PrintedAll(list[1..], orders[1..]));
      CommandsStep(PrintedAll(list, orders));
      assert [list[0]] + list[1..] == list;
    }
  }

  lemma ValueIsPlain(msg: string)
    ensures '\\' !in TakeValue(msg).0
  {
  }

  lemma {:induction false} PairsArePlain(msg: string)
    requires Pairs(msg).Scan?
    ensures forall i :: 0 <= i < |Pairs(msg).pairs| ==> PlainPair(Pairs(msg).pairs[i])
    decreases |msg|
  {
    hide Backslash, TakeValue;
    if Starts(msg) {
      var keyEnd := Backslash(msg[1..]) + 1;
      var key, rest := msg[1..keyEnd], msg[keyEnd + 1..];
      assert key == msg[1..][..keyEnd - 1];
      if key != "final" {
        ValueIsPlain(rest);
        PairsArePlain(TakeValue(rest).1);
      }
    }
  }

  lemma {:induction false} OthersArePlain(pairs: seq<Pair>)
    requires forall i :: 0 <= i < |pairs| ==> PlainPair(pairs[i])
    ensures forall k :: k in Others(pairs) ==> PlainPair(Pair(k, Others(pairs)[k]))
    decreases |pairs|
  {
    hide PlainPair;
    if pairs != [] {
      OthersArePlain(pairs[..|pairs| - 1]);
    }
  }

  /** Whatever the text, the parser returns commands of this kind only. */
  lemma {:induction false} CommandsAreCarried(msg: string)
    requires Commands(msg).Some?
    ensures forall i :: 0 <= i < |Commands(msg).value| ==> Carried(Commands(msg).value[i])
    decreases |msg|
  {
    if Starts(msg) && Contains(msg, FINAL) {
      var s := Pairs(msg);
      CommandsAreCarried(s.rest);
      PairsArePlain(msg);
      if s.pairs != [] {
        OthersArePlain(s.pairs[1..]);
      }
      assert Carried(CommandOf(s.pairs));
    }
  }

  /**
   Printed one after the other, in any order of their values, commands are parsed back as they
   were if and only if each is plain or is the command of a final key alone.
   */
  lemma ParseOfPrinted(list: seq<Command>, orders: seq<seq<Pair>>)
    requires list != [] && |orders| == |list|
    requires forall i :: 0 <= i < |list| ==> Lists(orders[i], list[i].others)
    ensures Parsed(PrintedAll(list, orders)) == Some(list) <==> forall i :: 0 <= i < |list| ==> Plain(list[i]) || list[i] == NOTHING
  {
    hide Plain, Lists, Printed, Pairs, Contains, Commands;
    if forall i :: 0 <= i < |list| ==> Carried(list[i]) {
      CommandsOfPrinted(list, orders);
      CarriedParses(list[0], orders[0], PrintedAll(list[1..], orders[1..]));
    }
    if Parsed(PrintedAll(list, orders)) == Some(list) {
      CommandsAreCarried(PrintedAll(list, orders));
      assert forall i :: 0 <= i < |list| ==> Carried(list[i]);
    }
  }

  /** Backslashes are not escaped: what follows one in a value is read as the next key. */
  lemma BackslashBreaks()
    ensures Parsed(Printed(Command("a", "b\\c", map[]), [])) != Some([Command("a", "b\\c", map[])])
  {
    hide Pairs, Contains;
    var msg := Printed(Command("a", "b\\c", map[]), []);
    var tail := "\\c" + FINAL;
    assert msg == PrintPair(Pair("a", "b")) + tail;
    PairsStep(Pair("a", "b"), tail);
    if Parsed(msg).Some? {
      CommandsStep(msg);
      assert Pairs(msg).Scan? ==> Pairs(msg).pairs[0] == Pair("a", "b");
      assert Parsed(msg).value[0].value == "b";
    }
  }
}
