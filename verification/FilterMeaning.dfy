/**
 serverbrowser/filter.go: what the filters the client library sends mean.  They are lists of
 comparisons joined by "and", some of them in brackets.
 */
module FilterMeaning {
  import opened MatchCommand
  import opened Decimal
  import opened Qr2Objects
  import opened FilterTokens
  import opened FilterTree
  import opened FilterEval

  datatype Item = Test(left: Token, operator: string, right: Token) | Nested(list: Conj)

  datatype Conj = One(item: Item) | More(before: Conj, word: string, item: Item)

  /** The comparisons a test can be made with; the parser has them on one level. */
  predicate Comparison(op: string): (r: bool)
    ensures r <==> op in LEVELS[2]
  {
    op == "=" || op == "==" || op == "!=" || op == ">" || op == "<" || op == ">=" || op == "<="
  }

  predicate ItemOK(i: Item) {
    match i
    case Test(l, op, r) => l.IsValue() && r.IsValue() && Comparison(op)
    case Nested(c) => ConjOK(c)
  }

  predicate ConjOK(c: Conj) {
    match c
    case One(i) => ItemOK(i)
    case More(b, w, i) => ConjOK(b) && (w == "and" || w == "AND") && ItemOK(i)
  }

  function ItemLexemes(i: Item): seq<Lexeme> {
    match i
    case Test(l, op, r) => [Leaf(l), Op(op), Leaf(r)]
    case Nested(c) => [Open] + ConjLexemes(c) + [Close]
  }

  function ConjLexemes(c: Conj): seq<Lexeme> {
    match c
    case One(i) => ItemLexemes(i)
    case More(b, w, i) => ConjLexemes(b) + [Op(w)] + ItemLexemes(i)
  }

  // ---------- Meaning

  function TextOf(q: Query, t: Token): string
    requires t.IsValue()
  {
    match t
    case Number(v) => FormatInt(v)
    case Identity(name) => Get(q.server, name)
    case Text(s) => s
  }

  function IntegerOf(q: Query, t: Token): Option<int>
    requires t.IsValue()
  {
    if t.Number? then Some(t.value) else ParseInt64(TextOf(q, t))
  }

  /** Rooms of one kind are searched as one region: vs_0 to vs_5 are vs, bt_0 to bt_5 are bt. */
  function Region(rk: string): string {
    if rk == "vs_0" || rk == "vs_1" || rk == "vs_2" || rk == "vs_3" || rk == "vs_4" || rk == "vs_5" then "vs"
    else if rk == "bt_0" || rk == "bt_1" || rk == "bt_2" || rk == "bt_3" || rk == "bt_4" || rk == "bt_5" then "bt"
    else rk
  }

  /** Searches of this game ignore the ratings when there are too few players for them. */
  predicate RatingSearch(q: Query, t: Token) {
    q.game == "mariokartwii" && q.ignorevr && t in [Identity("ev"), Identity("eb")]
  }

  /** The orderings of the integers. */
  predicate Ordered(a: int, op: string, b: int)
    requires IsOrdering(op)
  {
    (op == ">" && a > b) || (op == "<" && a < b) || (op == ">=" && a >= b) || (op == "<=" && a <= b)
  }

  /** None when an ordering test meets a value that is not an integer. */
  function TestHolds(q: Query, l: Token, op: string, r: Token): Option<bool>
    requires l.IsValue() && r.IsValue() && Comparison(op)
  {
    if op == "!=" then Some(TextOf(q, l) != TextOf(q, r))
    else if op == "=" || op == "==" then
      if l == Identity("rk") && q.game == "mariokartwii"
      then Some(Region(TextOf(q, l)) == Region(TextOf(q, r)))
      else Some(TextOf(q, l) == TextOf(q, r))
    else if RatingSearch(q, l) then Some(true)
    else
      var a, b := IntegerOf(q, l), IntegerOf(q, r);
      if a.None? || b.None? then None else Some(Ordered(a.value, op, b.value))
  }

  /** Left to right, stopping at the first test that does not hold or meets no integer. */
  function ItemHolds(q: Query, i: Item): Option<bool>
    requires ItemOK(i)
  {
    match i
    case Test(l, op, r) => TestHolds(q, l, op, r)
    case Nested(c) => ConjHolds(q, c)
  }

  function ConjHolds(q: Query, c: Conj): Option<bool>
    requires ConjOK(c)
  {
    match c
    case One(i) => ItemHolds(q, i)
    case More(b, _, i) =>
      var h := ConjHolds(q, b);
      if h == Some(true) then ItemHolds(q, i) else h
  }

  function OutcomeOf(h: Option<bool>): Outcome<int> {
    if h.None? then Crashed else Value(Truth(h.value))
  }

  function TestTree(l: Token, op: string, r: Token): Tree {
    Node(Operator(op), [Node(l, []), Node(r, [])])
  }

  /** The code drops the last two characters of a region with a number. */
  lemma RegionIs(rk: string)
    ensures NormalizeMKWRegion(rk) == Region(rk)
  {
    if |rk| == 4 {
      assert "vs_" <= rk <==> rk[0] == 'v' && rk[1] == 's' && rk[2] == '_';
      assert "bt_" <= rk <==> rk[0] == 'b' && rk[1] == 't' && rk[2] == '_';
      if '0' <= rk[3] < '6' {
        var c := rk[3];
        assert c == '0' || c == '1' || c == '2' || c == '3' || c == '4' || c == '5';
        assert rk == [rk[0], rk[1], rk[2], c];
        assert "vs_" <= rk ==> rk[..2] == "vs";
        assert "bt_" <= rk ==> rk[..2] == "bt";
      }
    }
  }

  /** An equality test, a difference test or an ordering test, once its operator is known. */
  lemma EqualityMeans(q: Query, l: Token, op: string, r: Token)
    requires l.IsValue() && r.IsValue() && (op == "=" || op == "==")
    ensures Equals(q, TestTree(l, op, r).kids) == OutcomeOf(TestHolds(q, l, op, r))
  {
    hide ParseInt64, NormalizeMKWRegion, FormatInt, NumberOf, Region;
    var args := [Node(l, []), Node(r, [])];
    ValueOf(q, l);
    ValueOf(q, r);
    assert args[1..] == [args[1]];
    RegionIs(TextOf(q, l));
    RegionIs(TextOf(q, r));
    EqualOrNot(q, TextOf(q, l), true, args[1..]);
  }

  lemma DifferenceMeans(q: Query, l: Token, r: Token)
    requires l.IsValue() && r.IsValue()
    ensures NotEquals(q, TestTree(l, "!=", r).kids) == OutcomeOf(TestHolds(q, l, "!=", r))
  {
    hide ParseInt64, NormalizeMKWRegion, FormatInt, NumberOf;
    var args := [Node(l, []), Node(r, [])];
    ValueOf(q, l);
    ValueOf(q, r);
    assert args[1..] == [args[1]];
    EqualOrNot(q, TextOf(q, l), false, args[1..]);
  }

  lemma OrderingMeans(q: Query, l: Token, op: string, r: Token)
    requires l.IsValue() && r.IsValue() && IsOrdering(op)
    ensures MathOperator(q, op, TestTree(l, op, r).kids) == OutcomeOf(TestHolds(q, l, op, r))
  {
    hide ParseInt64, NormalizeMKWRegion, FormatInt, StringOf;
    var args := [Node(l, []), Node(r, [])];
    ValueOf(q, l);
    ValueOf(q, r);
    assert args[1..] == [args[1]];
    if !RatingIgnored(q, l) && IntegerOf(q, l).Some? {
      OneComparison(q, op, IntegerOf(q, l).value, args[1..]);
    }
  }

  lemma TestTreeMeans(q: Query, l: Token, op: string, r: Token)
    requires l.IsValue() && r.IsValue() && op in LEVELS[2]
    ensures NumberOf(q, TestTree(l, op, r)) == OutcomeOf(TestHolds(q, l, op, r))
  {
    hide TestHolds, Equals, NotEquals, MathOperator;
    UpperIsOperator(op);
    assert NumberOf(q, TestTree(l, op, r)) == Apply(q, op, TestTree(l, op, r).kids);
    if op == "=" || op == "==" {
      EqualityMeans(q, l, op, r);
    } else if op == "!=" {
      DifferenceMeans(q, l, r);
    } else {
      OrderingMeans(q, l, op, r);
    }
  }

  lemma EqualOrNot(q: Query, s: string, same: bool, args: seq<Tree>)
    requires |args| == 1
    ensures AllAre(q, s, same, args) ==
              var b := StringOf(q, args[0]); if b.Panics() then b.Propagate() else Value(Truth((s == b.value) == same))
  {
    hide StringOf;
    assert args[1..] == [];
  }

  lemma OneComparison(q: Query, op: string, a: int, args: seq<Tree>)
    requires |args| == 1
    ensures MathFold(q, op, a, args) == var b := NumberOf(q, args[0]); if b.Panics() then b.Propagate() else Value(Math(op, a, b.value))
  {
    hide NumberOf;
    assert args[1..] == [];
  }

  lemma ValueOf(q: Query, t: Token)
    requires t.IsValue()
    ensures StringOf(q, Node(t, [])) == Value(TextOf(q, t))
    ensures NumberOf(q, Node(t, [])) == if IntegerOf(q, t).None? then Crashed else Value(IntegerOf(q, t).value)
  {
    hide ParseInt64, FormatInt;
  }

  // ---------- The trees the parser builds for a list

  /** A tree whose value is a truth value, printed as a string. */
  lemma TruthPrinted(q: Query, t: Tree, h: Option<bool>)
    requires t.token.Operator? || t.token == Group
    requires NumberOf(q, t) == OutcomeOf(h)
    ensures h.None? ==> StringOf(q, t) == Crashed
    ensures h.Some? ==> StringOf(q, t).Value? && (StringOf(q, t).value == "0" <==> !h.value)
  {
    assert FormatInt(0) == "0" && FormatInt(1) == "1";
  }

  /** Appending one argument to an "and" appends one test. */
  lemma {:induction false} AllTrueMore(q: Query, args: seq<Tree>, t: Tree, before: Option<bool>, h: Option<bool>)
    requires t.token.Operator? || t.token == Group
    requires NumberOf(q, t) == OutcomeOf(h)
    requires AllTrue(q, args) == OutcomeOf(before)
    ensures AllTrue(q, args + [t]) == OutcomeOf(if before == Some(true) then h else before)
  {
    hide StringOf, NumberOf;
    TruthPrinted(q, t, h);
    if args == [] {
      assert (args + [t])[1..] == [];
      assert (args + [t])[0] == t;
    } else {
      assert (args + [t])[1..] == args[1..] + [t] && (args + [t])[0] == args[0];
      var s := StringOf(q, args[0]);
      if s.Value? && s.value != "0" {
        AllTrueMore(q, args[1..], t, before, h);
      }
    }
  }

  lemma {:induction false} LexemesScannable(c: Conj)
    requires ConjOK(c)
    ensures AllScannable(ConjLexemes(c))
    decreases c, 1
  {
    hide IsOperator;
    match c
    case One(i) => ItemLexemesScannable(i);
    case More(b, w, i) =>
      LexemesScannable(b);
      ItemLexemesScannable(i);
      AndIsOperator(w);
  }

  lemma {:induction false} ItemLexemesScannable(i: Item)
    requires ItemOK(i)
    ensures AllScannable(ItemLexemes(i))
    decreases i, 0
  {
    hide IsOperator;
    match i
    case Test(l, op, r) => TestIsOperator(op);
    case Nested(c) => LexemesScannable(c);
  }

  lemma AndIsOperator(w: string)
    requires w == "and" || w == "AND"
    ensures IsOperator(w) && Level(w) == 2
  {
    LevelsOf();
    assert OPERATORS[16] == "and";
    assert Upper("and") == "AND";
  }

  lemma TestIsOperator(op: string)
    requires op in LEVELS[2]
    ensures IsOperator(op) && Level(op) == 3
  {
    LevelsOf();
    assert op in OPERATORS;
  }

  /** A place where a list can start: an open bracket or the root, with nothing in it yet. */
  predicate Fresh(frames: seq<Frame>) {
    Proper(frames) && !Top(frames).token.Operator? && Top(frames).kids == []
  }

  /**
   What the parser has after a list: a finished bracket, a test on top, or an "and" whose
   last argument is a finished bracket or a test still on top.
   */
  datatype Shape =
    | Bracket(t: Tree)
    | OnlyTest(t: Tree)
    | AndBracket(word: string, args: seq<Tree>)
    | AndTest(word: string, args: seq<Tree>, t: Tree)

  function Shaped(frames: seq<Frame>, s: Shape): seq<Frame>
    requires frames != []
  {
    match s
    case Bracket(t) => AddKid(frames, t)
    case OnlyTest(t) => frames + [Frame(t.token, t.kids)]
    case AndBracket(w, args) => frames + [Frame(Operator(w), args)]
    case AndTest(w, args, t) => frames + [Frame(Operator(w), args), Frame(t.token, t.kids)]
  }

  predicate AndWord(w: string) {
    w == "and" || w == "AND"
  }

  predicate ShapeOK(s: Shape) {
    match s
    case Bracket(t) => t.token == Group
    case OnlyTest(t) => t.token.Operator? && t.token.operator in LEVELS[2]
    case AndBracket(w, args) => AndWord(w) && |args| >= 2
    case AndTest(w, args, t) => AndWord(w) && |args| >= 1 && t.token.Operator? && t.token.operator in LEVELS[2]
  }

  /** The shape as one tree. */
  function ShapeTree(s: Shape): Tree {
    match s
    case Bracket(t) => t
    case OnlyTest(t) => t
    case AndBracket(w, args) => Node(Operator(w), args)
    case AndTest(w, args, t) => Node(Operator(w), args + [t])
  }

  /** The arguments a following "and" word starts with. */
  function Arguments(s: Shape, word: string): seq<Tree> {
    if s.AndBracket? && s.word == word then s.args else [ShapeTree(s)]
  }

  lemma AfterBracket(frames: seq<Frame>, t: Tree, word: string)
    requires Fresh(frames) && Proper(AddKid(frames, t))
    ensures PutOperator(AddKid(frames, t), word) == Some(frames + [Frame(Operator(word), [t])])
  {
    hide IsOperator, Level;
    var f, n := AddKid(frames, t), |frames|;
    assert f[n - 1].kids == [t];
    assert f[n - 1 := Frame(Top(f).token, [])] == frames;
  }

  lemma AfterTest(frames: seq<Frame>, t: Tree, word: string)
    requires Fresh(frames) && AndWord(word) && t.token.Operator? && t.token.operator in LEVELS[2]
    requires Proper(frames + [Frame(t.token, t.kids)])
    ensures PutOperator(frames + [Frame(t.token, t.kids)], word) == Some(frames + [Frame(Operator(word), [t])])
  {
    hide IsOperator, Level;
    AndIsOperator(word);
    TestIsOperator(t.token.operator);
    assert (frames + [Frame(t.token, t.kids)])[..|frames|] == frames;
  }

  lemma AfterAndBracket(frames: seq<Frame>, w: string, args: seq<Tree>, word: string)
    requires Fresh(frames) && AndWord(word) && AndWord(w) && Proper(frames + [Frame(Operator(w), args)])
    ensures PutOperator(frames + [Frame(Operator(w), args)], word) ==
              Some(frames + [Frame(Operator(word), if w == word then args else [Node(Operator(w), args)])])
  {
    hide IsOperator, Level;
    AndIsOperator(word);
    AndIsOperator(w);
    assert (frames + [Frame(Operator(w), args)])[..|frames|] == frames;
  }

  lemma AfterAndTest(frames: seq<Frame>, w: string, args: seq<Tree>, t: Tree, word: string)
    requires Fresh(frames) && AndWord(word) && AndWord(w) && t.token.Operator? && t.token.operator in LEVELS[2]
    requires Proper(frames + [Frame(Operator(w), args), Frame(t.token, t.kids)])
    ensures PutOperator(frames + [Frame(Operator(w), args), Frame(t.token, t.kids)], word) ==
              Some(frames + [Frame(Operator(word), [Node(Operator(w), args + [t])])])
  {
    hide IsOperator, Level;
    AndIsOperator(word);
    TestIsOperator(t.token.operator);
    var f, n := frames + [Frame(Operator(w), args), Frame(t.token, t.kids)], |frames|;
    assert f[..n + 1] == frames + [Frame(Operator(w), args)];
    var g := Up(f);
    assert g == frames + [Frame(Operator(w), args + [t])];
    assert g[..n] == frames;
    assert Climb(f) == Climb(g) == g;
  }

  lemma AfterWord(frames: seq<Frame>, s: Shape, word: string)
    requires Fresh(frames) && ShapeOK(s) && Proper(Shaped(frames, s)) && AndWord(word)
    ensures IsOperator(word)
    ensures Put(Shaped(frames, s), Op(word)) == Some(frames + [Frame(Operator(word), Arguments(s, word))])
  {
    hide IsOperator, Level, Proper, Fresh, PutOperator;
    AndIsOperator(word);
    match s
    case Bracket(t) => AfterBracket(frames, t, word);
    case OnlyTest(t) => AfterTest(frames, t, word);
    case AndBracket(w, args) => AfterAndBracket(frames, w, args, word);
    case AndTest(w, args, t) => AfterAndTest(frames, w, args, t, word);
  }

  // ---------- The meaning of what was built

  predicate Means(q: Query, s: Shape, h: Option<bool>) {
    match s
    case Bracket(t) => NumberOf(q, t) == OutcomeOf(h)
    case OnlyTest(t) => NumberOf(q, t) == OutcomeOf(h)
    case AndBracket(w, args) => AllTrue(q, args) == OutcomeOf(h)
    case AndTest(w, args, t) => AllTrue(q, args + [t]) == OutcomeOf(h)
  }

  lemma AndMeans(q: Query, w: string, args: seq<Tree>)
    requires AndWord(w) && |args| >= 2
    ensures NumberOf(q, Node(Operator(w), args)) == AllTrue(q, args)
  {
    hide AllTrue;
    assert Lower("and") == "and" && Lower("AND") == "and";
    assert NumberOf(q, Node(Operator(w), args)) == Apply(q, "and", args);
  }

  lemma ShapeMeans(q: Query, s: Shape, h: Option<bool>)
    requires ShapeOK(s) && Means(q, s, h)
    ensures NumberOf(q, ShapeTree(s)) == OutcomeOf(h)
  {
    hide AllTrue, NumberOf;
    match s
    case Bracket(t) =>
    case OnlyTest(t) =>
    case AndBracket(w, args) => AndMeans(q, w, args);
    case AndTest(w, args, t) => AndMeans(q, w, args + [t]);
  }

  lemma ArgumentsMean(q: Query, s: Shape, word: string, h: Option<bool>)
    requires ShapeOK(s) && Means(q, s, h)
    ensures AllTrue(q, Arguments(s, word)) == OutcomeOf(h)
  {
    hide NumberOf;
    if !(s.AndBracket? && s.word == word) {
      ShapeMeans(q, s, h);
      AllTrueMore(q, [], ShapeTree(s), Some(true), h);
      assert [] + [ShapeTree(s)] == [ShapeTree(s)];
    }
  }

  lemma BracketMeans(q: Query, t: Tree)
    ensures NumberOf(q, Node(Group, [t])) == NumberOf(q, t)
  {
    assert NumberOf(q, Node(Group, [t])) == EvalFirst(q, [t]);
  }

  lemma CloseShape(frames: seq<Frame>, s: Shape)
    requires Fresh(frames) && Top(frames).token == Group && ShapeOK(s) && Proper(Shaped(frames, s))
    ensures |frames| >= 2
    ensures CloseBracket(Shaped(frames, s)) == Some(AddKid(frames[..|frames| - 1], Node(Group, [ShapeTree(s)])))
  {
    hide IsOperator;
    var n := |frames|;
    var filled := AddKid(frames, ShapeTree(s));
    assert filled[..n - 1] == frames[..n - 1];
    assert Top(filled).kids == [ShapeTree(s)];
    assert CloseBracket(filled) == Some(Up(filled));
    UpShape(frames, s);
  }

  /** Going up from the shape leaves it as one tree in its bracket. */
  lemma UpShape(frames: seq<Frame>, s: Shape)
    requires Fresh(frames) && ShapeOK(s) && Proper(Shaped(frames, s))
    ensures Proper(AddKid(frames, ShapeTree(s)))
    ensures CloseBracket(Shaped(frames, s)) == CloseBracket(AddKid(frames, ShapeTree(s)))
    ensures Plug(Shaped(frames, s)) == Plug(AddKid(frames, ShapeTree(s)))
  {
    hide IsOperator;
    var f, n := Shaped(frames, s), |frames|;
    match s
    case Bracket(t) =>
    case OnlyTest(t) =>
      assert f[..n] == frames;
    case AndBracket(w, args) =>
      assert f[..n] == frames;
    case AndTest(w, args, t) =>
      assert f[..n + 1] == frames + [Frame(Operator(w), args)];
      var g := Up(f);
      assert g == frames + [Frame(Operator(w), args + [t])];
      assert g[..n] == frames;
  }

  // ---------- Running the parser over a list

  lemma RunTest(frames: seq<Frame>, l: Token, op: string, r: Token)
    requires Proper(frames) && l.IsValue() && r.IsValue() && op in LEVELS[2]
    requires Top(frames).token.Operator? ==> AndWord(Top(frames).token.operator)
    ensures AllScannable([Leaf(l), Op(op), Leaf(r)])
    ensures Run(frames, [Leaf(l), Op(op), Leaf(r)]) == Some(frames + [Frame(Operator(op), TestTree(l, op, r).kids)])
  {
    hide IsOperator, Level;
    TestIsOperator(op);
    AndIsOperator("and");
    AndIsOperator("AND");
    var xs := [Leaf(l), Op(op), Leaf(r)];
    var a := AddKid(frames, Node(l, []));
    var b := PushOnLast(a, op);
    RunOne(frames, Leaf(l));
    RunOne(a, Op(op));
    RunJoins(frames, [Leaf(l)], [Op(op)]);
    assert Top(a).kids[..|Top(a).kids| - 1] == Top(frames).kids;
    assert b == frames + [Frame(Operator(op), [Node(l, [])])];
    assert [Leaf(l)] + [Op(op)] == [Leaf(l), Op(op)];
    RunJoins(frames, [Leaf(l), Op(op)], [Leaf(r)]);
    RunOne(b, Leaf(r));
    assert [Leaf(l), Op(op)] + [Leaf(r)] == xs;
    assert [Node(l, [])] + [Node(r, [])] == TestTree(l, op, r).kids;
    assert AddKid(b, Node(r, [])) == frames + [Frame(Operator(op), TestTree(l, op, r).kids)];
  }

  /** A bracketed list becomes one finished child of the node it was inside in. */
  lemma {:induction false} RunNested(q: Query, frames: seq<Frame>, c: Conj) returns (t: Tree)
    requires Proper(frames) && ConjOK(c)
    ensures AllScannable(ItemLexemes(Nested(c)))
    ensures Run(frames, ItemLexemes(Nested(c))) == Some(AddKid(frames, t))
    ensures t.token == Group && NumberOf(q, t) == OutcomeOf(ConjHolds(q, c))
    decreases c, 3
  {
    hide NumberOf, Shaped, IsOperator, Put, ShapeTree, Means, ShapeOK;
    var inside := frames + [Frame(Group, [])];
    LexemesScannable(c);
    RunOne(frames, Open);
    assert Put(frames, Open) == Some(inside) by { PutOpen(frames); }
    var s := RunConj(q, inside, c);
    RunJoins(frames, [Open], ConjLexemes(c));
    RunJoins(frames, [Open] + ConjLexemes(c), [Close]);
    RunOne(Shaped(inside, s), Close);
    t := Node(Group, [ShapeTree(s)]);
    assert inside[..|inside| - 1] == frames;
    CloseShape(inside, s);
    PutClose(Shaped(inside, s));
    ShapeMeans(q, s, ConjHolds(q, c));
    BracketMeans(q, ShapeTree(s));
  }

  lemma PutOpen(frames: seq<Frame>)
    requires Proper(frames)
    ensures Put(frames, Open) == Some(frames + [Frame(Group, [])])
  {
  }

  lemma PutClose(frames: seq<Frame>)
    requires Proper(frames)
    ensures Put(frames, Close) == CloseBracket(frames)
  {
  }

  lemma {:induction false} RunItem(q: Query, frames: seq<Frame>, i: Item) returns (s: Shape)
    requires Fresh(frames) && ItemOK(i)
    ensures AllScannable(ItemLexemes(i))
    ensures Run(frames, ItemLexemes(i)) == Some(Shaped(frames, s))
    ensures ShapeOK(s) && Means(q, s, ItemHolds(q, i))
    decreases i, 2
  {
    hide NumberOf, IsOperator, Put, TestHolds, Run;
    match i
    case Test(l, op, r) =>
      RunTest(frames, l, op, r);
      TestTreeMeans(q, l, op, r);
      s := OnlyTest(TestTree(l, op, r));
    case Nested(c) =>
      var t := RunNested(q, frames, c);
      s := Bracket(t);
  }

  /** The same after "and", whose arguments so far are `args`. */
  lemma {:induction false} RunItemAfter(q: Query, frames: seq<Frame>, w: string, args: seq<Tree>, i: Item, before: Option<bool>) returns (s: Shape)
    requires Fresh(frames) && ItemOK(i) && AndWord(w) && args != [] && IsOperator(w) && AllTrue(q, args) == OutcomeOf(before)
    ensures AllScannable(ItemLexemes(i))
    ensures Proper(frames + [Frame(Operator(w), args)])
    ensures Run(frames + [Frame(Operator(w), args)], ItemLexemes(i)) == Some(Shaped(frames, s))
    ensures ShapeOK(s) && Means(q, s, if before == Some(true) then ItemHolds(q, i) else before)
    decreases i, 2
  {
    hide NumberOf, AllTrue, IsOperator, Put, TestHolds, Run;
    var f := frames + [Frame(Operator(w), args)];
    var t: Tree;
    match i {
      case Test(l, op, r) =>
        RunTest(f, l, op, r);
        TestTreeMeans(q, l, op, r);
        t := TestTree(l, op, r);
        s := AndTest(w, args, t);
        assert Shaped(frames, s) == f + [Frame(t.token, t.kids)];
      case Nested(c) =>
        t := RunNested(q, f, c);
        s := AndBracket(w, args + [t]);
        assert Shaped(frames, s) == AddKid(f, t);
    }
    AllTrueMore(q, args, t, before, ItemHolds(q, i));
  }

  lemma {:induction false} RunConj(q: Query, frames: seq<Frame>, c: Conj) returns (s: Shape)
    requires Fresh(frames) && ConjOK(c)
    ensures AllScannable(ConjLexemes(c))
    ensures Run(frames, ConjLexemes(c)) == Some(Shaped(frames, s))
    ensures ShapeOK(s) && Means(q, s, ConjHolds(q, c))
    decreases c, 2
  {
    hide NumberOf, AllTrue, IsOperator, Put, TestHolds, Run, Means, Shaped, ShapeOK, Arguments;
    match c
    case One(i) => s := RunItem(q, frames, i);
    case More(b, w, i) =>
      var s0 := RunConj(q, frames, b);
      AfterWord(frames, s0, w);
      ArgumentsMean(q, s0, w, ConjHolds(q, b));
      var args := Arguments(s0, w);
      assert args != [] by { SomeArguments(s0, w); }
      RunOne(Shaped(frames, s0), Op(w));
      RunJoins(frames, ConjLexemes(b), [Op(w)]);
      s := RunItemAfter(q, frames, w, args, i, ConjHolds(q, b));
      RunJoins(frames, ConjLexemes(b) + [Op(w)], ItemLexemes(i));
  }

  lemma SomeArguments(s: Shape, w: string)
    requires ShapeOK(s)
    ensures Arguments(s, w) != []
  {
  }

  /** The value Eval gives the tree Parse returns. */
  function Evaluate(q: Query, t: Tree): Outcome<int> {
    EvalFirst(q, t.kids)
  }

  /** A list of tests joined by "and" evaluates to the left-to-right conjunction of its tests. */
  lemma FilterMeans(q: Query, c: Conj)
    requires ConjOK(c)
    ensures AllScannable(ConjLexemes(c)) && Run(START, ConjLexemes(c)).Some?
    ensures Evaluate(q, Plug(Run(START, ConjLexemes(c)).value)) == OutcomeOf(ConjHolds(q, c))
  {
    hide NumberOf, IsOperator, Run, ConjHolds, Means;
    var s := RunConj(q, START, c);
    UpShape(START, s);
    ShapeMeans(q, s, ConjHolds(q, c));
    assert [] + [ShapeTree(s)] == [ShapeTree(s)];
    assert AddKid(START, ShapeTree(s)) == [Frame(Empty, [ShapeTree(s)])];
  }

  /** The panic is met: a server without the field, and a filter that compares it. */
  lemma MissingFieldCrashes(like: (string, string) -> Outcome<int>)
    ensures var q, c := Query(map[], "mariokartwii", false, like), One(Test(Identity("numplayers"), "<", Number(12)));
            && ConjOK(c) && AllScannable(ConjLexemes(c)) && Run(START, ConjLexemes(c)).Some?
            && Evaluate(q, Plug(Run(START, ConjLexemes(c)).value)) == Crashed
  {
    hide Run, AllScannable, Evaluate;
    var q, c := Query(map[], "mariokartwii", false, like), One(Test(Identity("numplayers"), "<", Number(12)));
    assert ParseInt64("").None?;
    assert ConjHolds(q, c).None?;
    FilterMeans(q, c);
  }

  // ---------- When every field met by an ordering test is an integer

  /** All the tests of a list, in brackets or not. */
  function Tests(c: Conj): set<Item> {
    match c
    case One(i) => ItemTests(i)
    case More(b, _, i) => Tests(b) + ItemTests(i)
  }

  function ItemTests(i: Item): set<Item> {
    match i
    case Test(_, _, _) => {i}
    case Nested(c) => Tests(c)
  }

  /** Every test in the list can be decided: its fields are integers where it orders them. */
  ghost predicate Decided(q: Query, tests: set<Item>) {
    forall t :: t in tests ==> t.Test? && ItemOK(t) && ItemHolds(q, t).Some?
  }

  ghost predicate AllHold(q: Query, tests: set<Item>) {
    forall t :: t in tests ==> t.Test? && ItemOK(t) && ItemHolds(q, t) == Some(true)
  }

  lemma {:induction false} DecidedItem(q: Query, i: Item)
    requires ItemOK(i) && Decided(q, ItemTests(i))
    ensures ItemHolds(q, i).Some? && (ItemHolds(q, i).value <==> AllHold(q, ItemTests(i)))
  {
    match i
    case Test(_, _, _) =>
      assert i in ItemTests(i);
    case Nested(c) => DecidedConj(q, c);
  }

  lemma {:induction false} DecidedConj(q: Query, c: Conj)
    requires ConjOK(c) && Decided(q, Tests(c))
    ensures ConjHolds(q, c).Some? && (ConjHolds(q, c).value <==> AllHold(q, Tests(c)))
  {
    match c
    case One(i) => DecidedItem(q, i);
    case More(b, _, i) =>
      assert Decided(q, Tests(b)) && Decided(q, ItemTests(i));
      DecidedConj(q, b);
      DecidedItem(q, i);
  }

  /** A filter of the client library selects exactly the servers of which every test holds. */
  lemma FilterSelects(q: Query, c: Conj)
    requires ConjOK(c) && Decided(q, Tests(c))
    ensures AllScannable(ConjLexemes(c)) && Run(START, ConjLexemes(c)).Some?
    ensures Evaluate(q, Plug(Run(START, ConjLexemes(c)).value)) == Value(Truth(AllHold(q, Tests(c))))
  {
    hide Run, ConjHolds, NumberOf;
    FilterMeans(q, c);
    DecidedConj(q, c);
  }
}
