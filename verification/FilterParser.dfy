/**
 serverbrowser/filter/parse.go and parse_branches.go: value parts and operator parts in
 turn.  Calls of functions are not part of this model; parsing stops where one starts.
 */
module FilterParser {
  import opened MatchCommand
  import opened Decimal
  import opened FilterTokens
  import opened FilterTree
  import opened FilterScanner
  import opened FilterNodes
  import opened FilterEval
  import opened FilterMeaning

  datatype Scanned = End | Found(x: Lexeme, next: nat) | Call | Bad

  /** What stands at pos where a value is due. */
  function ScanValue(u: Classes, text: string, pos: nat): (r: Scanned)
    requires pos <= |text|
    ensures r.Found? ==> pos < r.next <= |text| && Scannable(r.x) && !r.x.Op? && !r.x.Close?
  {
    var p := RunEnd(IsSpace, text, pos);
    if p == |text| then End
    else if NumberEnd(u, text, p).Some? then
      var e := NumberEnd(u, text, p).value;
      var v := ParseInt64(text[p..e]);
      if v.None? then Bad else Found(Leaf(Number(v.value)), e)
    else if WordEnd(u, text, p).Some? then
      var e := WordEnd(u, text, p).value;
      if CharAt(text, e) == Some('(') then Call else Found(Leaf(Identity(text[p..e])), e)
    else if text[p] == '"' || text[p] == '\'' then
      var e := RunEnd(c => c != text[p], text, p + 1);
      if e == |text| then Bad else Found(Leaf(Text(text[p + 1..e])), e + 1)
    else if text[p] == '(' then Found(Open, p + 1)
    else Bad
  }

  /** What stands at pos where an operator is due. */
  function ScanOperator(u: Classes, text: string, pos: nat): (r: Scanned)
    requires pos <= |text|
    ensures r.Found? ==> pos < r.next <= |text| && Scannable(r.x) && (r.x.Op? || r.x.Close?)
    ensures !r.Call?
  {
    var p := RunEnd(IsSpace, text, pos);
    if p == |text| then End
    else if OperatorEnd(u, text, p, 0).Some? then
      var e := OperatorEnd(u, text, p, 0).value;
      assert p < e <= |text| && IsOperator(text[p..e]) by { OperatorFound(u, text, p, 0); }
      Found(Op(text[p..e]), e)
    else if text[p] == ')' then Found(Close, p + 1)
    else Bad
  }

  function ScanPart(u: Classes, text: string, pos: nat, valuePart: bool): Scanned
    requires pos <= |text|
  {
    if valuePart then ScanValue(u, text, pos) else ScanOperator(u, text, pos)
  }

  predicate ValueNext(x: Lexeme) {
    x.Open? || x.Op?
  }

  datatype Verdict = Accepted(frames: seq<Frame>) | Rejected | CallsFunction

  function ParseFrom(u: Classes, text: string, pos: nat, valuePart: bool, frames: seq<Frame>): (r: Verdict)
    requires pos <= |text| && Proper(frames)
    ensures r.Accepted? ==> Proper(r.frames)
    decreases |text| - pos
  {
    match ScanPart(u, text, pos, valuePart)
    case End => Accepted(frames)
    case Call => CallsFunction
    case Bad => Rejected
    case Found(x, next) =>
      var put := Put(frames, x);
      if put.None? then Rejected
      else
        assert Proper(put.value) by { PutProper(frames, x); }
        ParseFrom(u, text, next, ValueNext(x), put.value)
  }

  /** The lexemes of a text on their own; None when one is bad or a function is called. */
  function LexFrom(u: Classes, text: string, pos: nat, valuePart: bool): (r: Option<seq<Lexeme>>)
    requires pos <= |text|
    ensures r.Some? ==> AllScannable(r.value)
    decreases |text| - pos
  {
    match ScanPart(u, text, pos, valuePart)
    case End => Some([])
    case Call => None
    case Bad => None
    case Found(x, next) =>
      var rest := LexFrom(u, text, next, ValueNext(x));
      if rest.None? then None else Some([x] + rest.value)
  }

  /** Parsing is scanning the lexemes and building with them one by one. */
  lemma {:induction false} ParseIsLexThenRun(u: Classes, text: string, pos: nat, valuePart: bool, frames: seq<Frame>)
    requires pos <= |text| && Proper(frames)
    ensures var xs := LexFrom(u, text, pos, valuePart);
            var verdict := ParseFrom(u, text, pos, valuePart, frames);
            verdict.Accepted? <==> xs.Some? && Run(frames, xs.value).Some?
    ensures var xs := LexFrom(u, text, pos, valuePart);
            xs.Some? && Run(frames, xs.value).Some? ==>
              ParseFrom(u, text, pos, valuePart, frames) == Accepted(Run(frames, xs.value).value)
    decreases |text| - pos
  {
    hide Put, ScanValue, ScanOperator, IsOperator;
    var s := ScanPart(u, text, pos, valuePart);
    if s.Found? {
      var put := Put(frames, s.x);
      RunOne(frames, s.x);
      var rest := LexFrom(u, text, s.next, ValueNext(s.x));
      if rest.Some? {
        RunJoins(frames, [s.x], rest.value);
      }
      if put.Some? {
        PutProper(frames, s.x);
        ParseIsLexThenRun(u, text, s.next, ValueNext(s.x), put.value);
      }
    }
  }

  /** The leaves of the tree of an accepted text are its values, left to right. */
  lemma LeavesOfText(u: Classes, text: string)
    requires ParseFrom(u, text, 0, true, START).Accepted?
    ensures LexFrom(u, text, 0, true).Some?
    ensures Leaves(Plug(ParseFrom(u, text, 0, true, START).frames)) == Values(LexFrom(u, text, 0, true).value)
  {
    ParseIsLexThenRun(u, text, 0, true, START);
    LeavesInOrder(LexFrom(u, text, 0, true).value);
  }

  /** Any spelling of a list of tests is accepted, and evaluates to 1 or 0 as all tests hold or not. */
  lemma TextSelects(u: Classes, q: Query, text: string, c: Conj)
    requires ConjOK(c) && LexFrom(u, text, 0, true) == Some(ConjLexemes(c)) && Decided(q, Tests(c))
    ensures ParseFrom(u, text, 0, true, START).Accepted?
    ensures Evaluate(q, Plug(ParseFrom(u, text, 0, true, START).frames)) == Value(Truth(AllHold(q, Tests(c))))
  {
    ParseIsLexThenRun(u, text, 0, true, START);
    FilterSelects(q, c);
  }

  // ---------- The parser

  datatype State = ValuePart | OperatorPart | Stop | Panicked | AtCall

  class Parser {
    const scan: Scanner
    const tree: Builder

    constructor (u: Classes, input: string)
      ensures fresh(scan) && fresh(tree) && fresh(tree.nodes) && scan.Valid() && tree.Valid()
      ensures scan.input == input && scan.u == u && scan.start == scan.pos == 0 && tree.frames == START
    {
      scan := new Scanner(u, input);
      tree := new Builder();
    }

    /** How a branch ends, for what it found at the position it started from. */
    twostate predicate Took(found: Scanned, new next: State)
      requires old(tree.Valid())
      reads scan, tree, tree.nodes
    {
      match found
      case End => next == Stop && scan.IsEOF() && scan.start == scan.pos && tree.frames == old(tree.frames)
      case Call => next == AtCall
      case Bad => next == Panicked || (next == Stop && !scan.IsEOF())
      case Found(x, e) =>
        if Put(old(tree.frames), x).None? then next == Panicked
        else
          && next == (if ValueNext(x) then ValuePart else OperatorPart) && scan.pos == scan.start == e
          && Put(old(tree.frames), x) == Some(tree.frames)
    }

    method BranchValuePart() returns (next: State)
      requires scan.Valid() && scan.start == scan.pos && tree.Valid()
      modifies scan, tree, tree.nodes
      ensures scan.Valid() && tree.Valid() && fresh(tree.nodes - old(tree.nodes))
      ensures Took(ScanValue(scan.u, scan.input, old(scan.pos)), next)
    {
      hide Builder.Valid, IsOperator, NumberEnd, WordEnd, ParseInt64, Put;
      scan.SkipSpaces();
      if scan.IsEOF() {
        return Stop;
      }
      var isNumber := scan.ScanNumber();
      if isNumber {
        next := AddNumber();
        return;
      }
      var isWord := scan.ScanWord();
      if isWord {
        next := BranchAfterWord();
        return;
      }
      next := BranchQuoteOrBracket();
    }

    method AddNumber() returns (next: State)
      requires scan.Valid() && tree.Valid()
      modifies scan, tree, tree.nodes
      ensures scan.Valid() && tree.Valid() && fresh(tree.nodes - old(tree.nodes)) && scan.pos == old(scan.pos)
      ensures var v := ParseInt64(scan.input[old(scan.start)..scan.pos]);
              if v.None? then next == Panicked
              else next == OperatorPart && scan.start == scan.pos && Put(old(tree.frames), Leaf(Number(v.value))) == Some(tree.frames)
    {
      hide Builder.Valid, ParseInt64, IsOperator;
      tree.AboveCurrent();
      var number := scan.Commit();
      var value := ParseInt64(number);
      if value.None? {
        return Panicked;
      }
      tree.AddLeaf(Number(value.value));
      return OperatorPart;
    }

    method BranchAfterWord() returns (next: State)
      requires scan.Valid() && tree.Valid()
      modifies scan, tree, tree.nodes
      ensures scan.Valid() && tree.Valid() && fresh(tree.nodes - old(tree.nodes)) && scan.pos == old(scan.pos)
      ensures if CharAt(scan.input, scan.pos) == Some('(') then next == AtCall
              else
                && next == OperatorPart && scan.start == scan.pos
                && Put(old(tree.frames), Leaf(Identity(scan.input[old(scan.start)..scan.pos]))) == Some(tree.frames)
    {
      hide Builder.Valid, IsOperator;
      tree.AboveCurrent();
      var following := scan.Peek();
      if following == Some('(') {
        return AtCall;
      }
      var word := scan.Commit();
      tree.AddLeaf(Identity(word));
      return OperatorPart;
    }

    method AddText() returns (next: State)
      requires scan.Valid() && tree.Valid() && !scan.IsEOF() && (scan.input[scan.pos] == '"' || scan.input[scan.pos] == '\'')
      modifies scan, tree, tree.nodes
      ensures scan.Valid() && tree.Valid() && fresh(tree.nodes - old(tree.nodes))
      ensures var p := old(scan.pos);
              var e := RunEnd(c => c != scan.input[p], scan.input, p + 1);
              if e == |scan.input| then next == Panicked
              else
                && next == OperatorPart && scan.pos == scan.start == e + 1
                && Put(old(tree.frames), Leaf(Text(scan.input[p + 1..e]))) == Some(tree.frames)
    {
      hide Builder.Valid, IsOperator, Proper;
      tree.AboveCurrent();
      var txt := scan.ParseText();
      if txt.None? {
        return Panicked;
      }
      tree.AddLeaf(Text(txt.value));
      return OperatorPart;
    }

    method ParseOpenBracket()
      requires scan.Valid() && tree.Valid()
      modifies scan, tree, tree.nodes
      ensures scan.Valid() && tree.Valid() && fresh(tree.nodes - old(tree.nodes))
      ensures scan.pos == scan.start == old(scan.pos) && Put(old(tree.frames), Open) == Some(tree.frames)
    {
      hide Builder.Valid, IsOperator, Proper;
      tree.AboveCurrent();
      tree.OpenBracket();
      var _ := scan.Commit();
    }

    method BranchQuoteOrBracket() returns (next: State)
      requires scan.Valid() && scan.start == scan.pos && tree.Valid() && !scan.IsEOF()
      modifies scan, tree, tree.nodes
      ensures scan.Valid() && tree.Valid() && fresh(tree.nodes - old(tree.nodes))
      ensures var p := old(scan.pos);
              if scan.input[p] == '"' || scan.input[p] == '\'' then
                var e := RunEnd(c => c != scan.input[p], scan.input, p + 1);
                if e == |scan.input| then next == Panicked
                else
                  && next == OperatorPart && scan.pos == scan.start == e + 1
                  && Put(old(tree.frames), Leaf(Text(scan.input[p + 1..e]))) == Some(tree.frames)
              else if scan.input[p] == '(' then
                next == ValuePart && scan.pos == scan.start == p + 1 && Put(old(tree.frames), Open) == Some(tree.frames)
              else next == Panicked
    {
      hide Builder.Valid, Put, Proper, IsOperator, RunEnd;
      tree.AboveCurrent();
      var c := scan.Next();
      if c == Some('"') || c == Some('\'') {
        scan.Backup();
        next := AddText();
      } else if c == Some('(') {
        ParseOpenBracket();
        next := ValuePart;
      } else {
        next := Panicked;
      }
    }

    /** The branch for a lone "=" is not reached: it is accepted as an operator before. */
    method BranchOperatorPart() returns (next: State)
      requires scan.Valid() && scan.start == scan.pos && tree.Valid()
      modifies scan, tree, tree.nodes
      ensures scan.Valid() && tree.Valid() && fresh(tree.nodes - old(tree.nodes))
      ensures Took(ScanOperator(scan.u, scan.input, old(scan.pos)), next)
    {
      hide Builder.Valid, IsOperator, OperatorEnd, PutOperator, CloseBracket;
      scan.SkipSpaces();
      if scan.IsEOF() {
        return Stop;
      }
      ghost var at := scan.pos;
      var isOperator := scan.AcceptOperator();
      if isOperator {
        OperatorFound(scan.u, scan.input, at, 0);
        var operator := scan.Commit();
        var pushed := tree.ParseOperator(operator);
        return if pushed then ValuePart else Panicked;
      }
      var c := scan.Next();
      assert c != Some('=') by {
        if c == Some('=') { EqualsIsOperator(scan.u, scan.input, at, 0); }
      }
      if c == Some(')') {
        var closed := tree.ParseCloseBracket();
        if !closed {
          return Panicked;
        }
        var _ := scan.Commit();
        return OperatorPart;
      }
      scan.Rollback();
      return Stop;
    }

    /** What the verdict on the whole text is, seen from the middle of the parse. */
    ghost predicate Reflects(state: State, verdict: Verdict)
      requires scan.Valid() && tree.Valid()
      reads scan, tree, tree.nodes
    {
      match state
      case ValuePart => scan.start == scan.pos && verdict == ParseFrom(scan.u, scan.input, scan.pos, true, tree.frames)
      case OperatorPart => scan.start == scan.pos && verdict == ParseFrom(scan.u, scan.input, scan.pos, false, tree.frames)
      case Stop => if scan.IsEOF() then scan.start == scan.pos && verdict == Accepted(tree.frames) else verdict == Rejected
      case Panicked => verdict == Rejected
      case AtCall => verdict == CallsFunction
    }

    method PumpExpression() returns (state: State)
      requires scan.Valid() && scan.start == scan.pos && tree.Valid()
      modifies scan, tree, tree.nodes
      ensures scan.Valid() && tree.Valid() && fresh(tree.nodes - old(tree.nodes))
      ensures match ParseFrom(scan.u, scan.input, old(scan.pos), true, old(tree.frames))
              case Accepted(frames) => state == Stop && tree.frames == frames
              case Rejected => state == Panicked
              case CallsFunction => state == AtCall
    {
      hide Builder.Valid, IsOperator, Put, ScanValue, ScanOperator;
      tree.AboveCurrent();
      ghost var verdict := ParseFrom(scan.u, scan.input, scan.pos, true, tree.frames);
      state := ValuePart;
      while state.ValuePart? || state.OperatorPart?
        invariant scan.Valid() && tree.Valid() && fresh(tree.nodes - old(tree.nodes))
        invariant Reflects(state, verdict)
        decreases state.ValuePart? || state.OperatorPart?, |scan.input| - scan.pos
      {
        if state.ValuePart? {
          state := BranchValuePart();
        } else {
          state := BranchOperatorPart();
        }
      }
      if state != Stop {
        return;
      }
      var rest := scan.Commit();
      if |rest| > 0 || !scan.IsEOF() {
        return Panicked;
      }
    }

    /** Parse; the root is null when the text is rejected or calls a function. */
    static method Parse(u: Classes, input: string) returns (verdict: State, root: TreeNode?, ghost nodes: set<TreeNode>)
      ensures verdict == match ParseFrom(u, input, 0, true, START)
                         case Accepted(_) => Stop
                         case Rejected => Panicked
                         case CallsFunction => AtCall
      ensures root == null <==> verdict != Stop
      ensures var parsed := ParseFrom(u, input, 0, true, START);
              parsed.Accepted? ==> root != null && root in nodes && Represents(root, Plug(parsed.frames), nodes)
    {
      hide ParseFrom, Represents, Plug, Builder.Valid;
      var p := new Parser(u, input);
      verdict := p.PumpExpression();
      if verdict != Stop {
        return verdict, null, {};
      }
      p.tree.RootRepresents();
      return Stop, p.tree.root, p.tree.nodes;
    }
  }
}
