/**
 serverbrowser/filter/: what the parser builds, as values.  The tree under construction is
 kept as its rightmost spine: one frame per node from the root down to the current node,
 each holding the finished children to the left of the next one.
 */
module FilterTree {
  import opened MatchCommand
  import opened FilterTokens

  datatype Tree = Node(token: Token, kids: seq<Tree>)

  datatype Frame = Frame(token: Token, kids: seq<Tree>)

  /** What the scanner hands to the parser, in order. */
  datatype Lexeme = Leaf(token: Token) | Open | Op(operator: string) | Close

  predicate Scannable(x: Lexeme) {
    && (x.Leaf? ==> x.token.IsValue())
    && (x.Op? ==> IsOperator(x.operator))
  }

  /** The frames of a parse: the root is empty, and nothing else is. */
  predicate Proper(frames: seq<Frame>) {
    && frames != [] && frames[0].token == Empty
    && forall k :: 0 < k < |frames| ==>
         (frames[k].token == Group || (frames[k].token.Operator? && IsOperator(frames[k].token.operator)))
  }

  function Top(frames: seq<Frame>): Frame
    requires frames != []
  {
    frames[|frames| - 1]
  }

  function AddKid(frames: seq<Frame>, kid: Tree): (r: seq<Frame>)
    requires frames != []
    ensures |r| == |frames|
  {
    frames[|frames| - 1 := Frame(Top(frames).token, Top(frames).kids + [kid])]
  }

  /** The current node becomes its parent: the top frame turns into the last child of the one below. */
  function Up(frames: seq<Frame>): (r: seq<Frame>)
    requires |frames| >= 2
    ensures |r| == |frames| - 1
  {
    AddKid(frames[..|frames| - 1], Node(Top(frames).token, Top(frames).kids))
  }

  /** Upwards while the parent is an operator. */
  function Climb(frames: seq<Frame>): (r: seq<Frame>)
    requires Proper(frames)
    ensures Proper(r) && |r| <= |frames|
    ensures |frames| >= 2 ==> |r| >= 2
    decreases |frames|
  {
    if |frames| >= 2 && frames[|frames| - 2].token.Operator? then Climb(Up(frames)) else frames
  }

  /** A new operator node takes the place of the last finished child, which becomes its first operand. */
  function PushOnLast(frames: seq<Frame>, operator: string): seq<Frame>
    requires frames != [] && Top(frames).kids != []
  {
    var kids := Top(frames).kids;
    frames[|frames| - 1 := Frame(Top(frames).token, kids[..|kids| - 1])] + [Frame(Operator(operator), [kids[|kids| - 1]])]
  }

  /** A new operator node takes the place of the current node, which becomes its first operand. */
  function PushOnCurrent(frames: seq<Frame>, operator: string): seq<Frame>
    requires frames != []
  {
    frames[..|frames| - 1] + [Frame(Operator(operator), [Node(Top(frames).token, Top(frames).kids)])]
  }

  /** parseOperator; None where the source panics. */
  function PutOperator(frames: seq<Frame>, operator: string): Option<seq<Frame>>
    requires Proper(frames)
  {
    var top := Top(frames);
    if top.token.Operator? then
      var have, level := Level(top.token.operator), Level(operator);
      if top.token.operator == operator then Some(frames)
      else if level > have && top.kids != [] then Some(PushOnLast(frames, operator))
      else if level < have then Some(PushOnCurrent(Climb(frames), operator))
      else Some(PushOnCurrent(frames, operator))
    else if top.kids != [] then Some(PushOnLast(frames, operator))
    else None
  }

  /** parseCloseBracket: leaves the innermost open bracket. */
  function CloseBracket(frames: seq<Frame>): Option<seq<Frame>>
    requires Proper(frames)
    decreases |frames|
  {
    if |frames| == 1 then None
    else if Top(frames).token == Group then Some(Up(frames))
    else CloseBracket(Up(frames))
  }

  function Put(frames: seq<Frame>, x: Lexeme): Option<seq<Frame>>
    requires Proper(frames)
  {
    match x
    case Leaf(token) => Some(AddKid(frames, Node(token, [])))
    case Open => Some(frames + [Frame(Group, [])])
    case Op(operator) => PutOperator(frames, operator)
    case Close => CloseBracket(frames)
  }

  lemma UpProper(frames: seq<Frame>)
    requires Proper(frames) && |frames| >= 2
    ensures Proper(Up(frames))
  {
    hide IsOperator;
  }

  /** The climb from an operator stops at an operator whose parent exists and is none. */
  lemma ClimbNeedsNoParent(frames: seq<Frame>)
    requires Proper(frames) && Top(frames).token.Operator?
    ensures |frames| >= 2 && |Climb(frames)| >= 2
    ensures Climb(frames)[|Climb(frames)| - 1].token.Operator? && !Climb(frames)[|Climb(frames)| - 2].token.Operator?
    decreases |frames|
  {
    hide IsOperator;
    if frames[|frames| - 2].token.Operator? {
      UpProper(frames);
      ClimbNeedsNoParent(Up(frames));
    }
  }

  lemma PutProper(frames: seq<Frame>, x: Lexeme)
    requires Proper(frames) && Scannable(x) && Put(frames, x).Some?
    ensures Proper(Put(frames, x).value)
    decreases |frames|
  {
    match x
    case Leaf(_) =>
    case Open =>
    case Op(operator) =>
      if Top(frames).token.Operator? {
        ClimbNeedsNoParent(frames);
      }
    case Close =>
      if |frames| >= 2 && Top(frames).token != Group {
        PutProper(Up(frames), x);
      }
  }

  // ---------- Order

  /** The values of a tree, read left to right. */
  function Leaves(t: Tree): seq<Token>
    decreases t, 0
  {
    (if t.token.IsValue() then [t.token] else []) + LeavesAll(t.kids)
  }

  function LeavesAll(ts: seq<Tree>): seq<Token>
    decreases ts, |ts|
  {
    if ts == [] then [] else LeavesAll(ts[..|ts| - 1]) + Leaves(ts[|ts| - 1])
  }

  function FrameLeaves(frames: seq<Frame>): seq<Token> {
    if frames == [] then []
    else FrameLeaves(frames[..|frames| - 1]) + (if Top(frames).token.IsValue() then [Top(frames).token] else []) + LeavesAll(Top(frames).kids)
  }

  lemma AddKidLeaves(frames: seq<Frame>, kid: Tree)
    requires frames != []
    ensures FrameLeaves(AddKid(frames, kid)) == FrameLeaves(frames) + Leaves(kid)
  {
    var r := AddKid(frames, kid);
    assert r[..|r| - 1] == frames[..|frames| - 1];
    assert (Top(frames).kids + [kid])[..|Top(frames).kids|] == Top(frames).kids;
  }

  lemma UpLeaves(frames: seq<Frame>)
    requires |frames| >= 2
    ensures FrameLeaves(Up(frames)) == FrameLeaves(frames)
  {
    hide AddKid, IsOperator;
    var node := Node(Top(frames).token, Top(frames).kids);
    AddKidLeaves(frames[..|frames| - 1], node);
    OneFrameMore(frames);
  }

  lemma OneFrameMore(frames: seq<Frame>)
    requires frames != []
    ensures FrameLeaves(frames) == FrameLeaves(frames[..|frames| - 1]) + Leaves(Node(Top(frames).token, Top(frames).kids))
  {
    hide Leaves, LeavesAll;
    var top := Top(frames);
    LeavesOfNode(top.token, top.kids);
    var below, value := FrameLeaves(frames[..|frames| - 1]), if top.token.IsValue() then [top.token] else [];
    assert below + (value + LeavesAll(top.kids)) == below + value + LeavesAll(top.kids);
  }

  lemma LeavesOfNode(token: Token, kids: seq<Tree>)
    ensures Leaves(Node(token, kids)) == (if token.IsValue() then [token] else []) + LeavesAll(kids)
  {
    hide LeavesAll;
  }

  lemma OneLeaf(t: Tree)
    ensures LeavesAll([t]) == Leaves(t)
  {
    assert [t][..0] == [];
  }

  lemma {:induction false} ClimbLeaves(frames: seq<Frame>)
    requires Proper(frames)
    ensures FrameLeaves(Climb(frames)) == FrameLeaves(frames)
    decreases |frames|
  {
    if |frames| >= 2 && frames[|frames| - 2].token.Operator? {
      UpLeaves(frames);
      ClimbLeaves(Up(frames));
    }
  }

  lemma PushLeaves(frames: seq<Frame>, operator: string)
    requires frames != []
    ensures FrameLeaves(PushOnCurrent(frames, operator)) == FrameLeaves(frames)
  {
    var top := Node(Top(frames).token, Top(frames).kids);
    var r := PushOnCurrent(frames, operator);
    assert r[..|r| - 1] == frames[..|frames| - 1];
    OneLeaf(top);
    OneFrameMore(frames);
  }

  lemma PushOnLastLeaves(frames: seq<Frame>, operator: string)
    requires frames != [] && Top(frames).kids != []
    ensures FrameLeaves(PushOnLast(frames, operator)) == FrameLeaves(frames)
  {
    hide FrameLeaves;
    var top, kids := Top(frames), Top(frames).kids;
    var q := PushOnLast(frames, operator);
    var below := frames[|frames| - 1 := Frame(top.token, kids[..|kids| - 1])];
    var last := kids[|kids| - 1];
    assert q[..|q| - 1] == below;
    assert below[..|frames| - 1] == frames[..|frames| - 1];
    OneFrameMore(q);
    OneFrameMore(below);
    OneFrameMore(frames);
    OneLeaf(last);
    LastKidLeaves(top.token, kids);
    assert Leaves(Node(Operator(operator), [last])) == Leaves(last);
  }

  lemma LastKidLeaves(token: Token, kids: seq<Tree>)
    requires kids != []
    ensures Leaves(Node(token, kids)) == Leaves(Node(token, kids[..|kids| - 1])) + Leaves(kids[|kids| - 1])
  {
  }

  function Values(xs: seq<Lexeme>): seq<Token> {
    if xs == [] then [] else Values(xs[..|xs| - 1]) + (if xs[|xs| - 1].Leaf? then [xs[|xs| - 1].token] else [])
  }

  lemma OpenLeaves(frames: seq<Frame>)
    ensures FrameLeaves(frames + [Frame(Group, [])]) == FrameLeaves(frames)
  {
    var r := frames + [Frame(Group, [])];
    assert r[..|r| - 1] == frames;
  }

  /** Every step of the parser keeps the values in the order they were scanned. */
  lemma {:induction false} PutLeaves(frames: seq<Frame>, x: Lexeme)
    requires Proper(frames) && Scannable(x) && Put(frames, x).Some?
    ensures FrameLeaves(Put(frames, x).value) == FrameLeaves(frames) + Values([x])
    decreases |frames|
  {
    hide IsOperator, Level, FrameLeaves, Climb, PushOnCurrent, PushOnLast, AddKid, Up;
    assert [x][..0] == [] && Values([x]) == if x.Leaf? then [x.token] else [];
    match x
    case Leaf(token) =>
      AddKidLeaves(frames, Node(token, []));
    case Open =>
      OpenLeaves(frames);
    case Op(operator) =>
      PushLeaves(frames, operator);
      if Top(frames).kids != [] {
        PushOnLastLeaves(frames, operator);
      }
      ClimbLeaves(frames);
      PushLeaves(Climb(frames), operator);
    case Close =>
      UpLeaves(frames);
      UpProper(frames);
      if Top(frames).token != Group {
        PutLeaves(Up(frames), x);
      }
  }

  // ---------- Whole runs

  const START: seq<Frame> := [Frame(Empty, [])]

  predicate AllScannable(xs: seq<Lexeme>) {
    forall k :: 0 <= k < |xs| ==> Scannable(xs[k])
  }

  /** Running the parser over lexemes, one at a time. */
  function Run(frames: seq<Frame>, xs: seq<Lexeme>): (r: Option<seq<Frame>>)
    requires Proper(frames) && AllScannable(xs)
    ensures r.Some? ==> Proper(r.value)
  {
    if xs == [] then Some(frames)
    else
      var before := Run(frames, xs[..|xs| - 1]);
      if before.None? then None else
      var r := Put(before.value, xs[|xs| - 1]);
      assert r.Some? ==> Proper(r.value) by {
        if r.Some? { PutProper(before.value, xs[|xs| - 1]); }
      }
      r
  }

  lemma {:induction false} RunJoins(frames: seq<Frame>, xs: seq<Lexeme>, ys: seq<Lexeme>)
    requires Proper(frames) && AllScannable(xs)
    requires AllScannable(ys)
    ensures AllScannable(xs + ys)
    ensures Run(frames, xs + ys) == if Run(frames, xs).None? then None else Run(Run(frames, xs).value, ys)
  {
    hide Put, Scannable;
    if ys == [] {
      assert xs + ys == xs;
    } else {
      var y := ys[|ys| - 1];
      assert (xs + ys)[..|xs + ys| - 1] == xs + ys[..|ys| - 1] && (xs + ys)[|xs + ys| - 1] == y;
      RunJoins(frames, xs, ys[..|ys| - 1]);
    }
  }

  lemma RunOne(frames: seq<Frame>, x: Lexeme)
    requires Proper(frames) && Scannable(x)
    ensures Run(frames, [x]) == Put(frames, x)
  {
    hide IsOperator, Put;
    assert [x][..0] == [];
    assert Run(frames, [x][..0]) == Some(frames);
  }

  lemma {:induction false} RunLeaves(xs: seq<Lexeme>)
    requires AllScannable(xs) && Run(START, xs).Some?
    ensures FrameLeaves(Run(START, xs).value) == Values(xs)
  {
    hide Put, Scannable;
    if xs == [] {
      assert START[..0] == [];
    } else {
      RunLeaves(xs[..|xs| - 1]);
      var x := xs[|xs| - 1];
      PutLeaves(Run(START, xs[..|xs| - 1]).value, x);
      assert [x][..0] == [];
    }
  }

  /** The whole tree, with every frame closed. */
  function Plug(frames: seq<Frame>): Tree
    requires frames != []
    decreases |frames|
  {
    if |frames| == 1 then Node(frames[0].token, frames[0].kids) else Plug(Up(frames))
  }

  lemma {:induction false} PlugLeaves(frames: seq<Frame>)
    requires frames != []
    ensures Leaves(Plug(frames)) == FrameLeaves(frames)
    decreases |frames|
  {
    if |frames| == 1 {
      assert frames[..0] == [];
    } else {
      UpLeaves(frames);
      PlugLeaves(Up(frames));
    }
  }

  /** The leaves of the finished tree, left to right, are the scanned values in order. */
  lemma LeavesInOrder(xs: seq<Lexeme>)
    requires AllScannable(xs) && Run(START, xs).Some?
    ensures Leaves(Plug(Run(START, xs).value)) == Values(xs)
  {
    RunLeaves(xs);
    PlugLeaves(Run(START, xs).value);
  }
}
