/** serverbrowser/filter/eval.go on the linked tree: the evaluator the server browser runs. */
module FilterExpression {
  import opened MatchCommand
  import opened Decimal
  import opened Qr2Objects
  import opened FilterTokens
  import opened FilterTree
  import opened FilterNodes
  import opened FilterEval

  ghost predicate AllRepresent(args: seq<TreeNode>, ts: seq<Tree>, nodes: set<TreeNode>)
    reads nodes
  {
    |args| == |ts| && forall k :: 0 <= k < |args| ==> args[k] in nodes && Represents(args[k], ts[k], nodes)
  }

  class Expression {
    const q: Query

    constructor (q: Query)
      ensures this.q == q
    {
      this.q := q;
    }

    method Eval(basenode: TreeNode, ghost t: Tree, ghost nodes: set<TreeNode>) returns (r: Outcome<int>)
      requires Represents(basenode, t, nodes)
      ensures r == EvalFirst(q, t.kids)
      decreases t, 0
    {
      hide Apply;
      if |basenode.items| == 0 {
        return Failed;
      }
      var node := basenode.items[0];
      match node.value {
        case Operator(_) => r := SwitchFunction(node, t.kids[0], nodes);
        case Group => r := Eval(node, t.kids[0], nodes);
        case Empty => r := Failed;
        case _ => r := GetNumber(node, t.kids[0], nodes);
      }
    }

    method SwitchFunction(node: TreeNode, ghost t: Tree, ghost nodes: set<TreeNode>) returns (r: Outcome<int>)
      requires Represents(node, t, nodes) && node.value.Operator?
      ensures r == NumberOf(q, t)
      decreases t, 1
    {
      hide Equals, NotEquals, MathOperator, AllTrue, AnyTrue, Like, Lower;
      var operator := Lower(node.value.operator);
      if operator == "=" || operator == "==" {
        r := EvalEquals(node.items, t.kids, nodes);
      } else if operator == "!=" {
        r := EvalNotEquals(node.items, t.kids, nodes);
      } else if IsMath(operator) {
        r := EvalMathOperator(operator, node.items, t.kids, nodes);
      } else if operator == "and" || operator == "&&" {
        r := EvalAnd(node.items, t.kids, nodes);
      } else if operator == "or" || operator == "||" {
        r := EvalOr(node.items, t.kids, nodes);
      } else if operator == "like" {
        r := EvalLike(node.items, t.kids, nodes);
      } else {
        r := Failed;
      }
    }

    method GetString(node: TreeNode, ghost t: Tree, ghost nodes: set<TreeNode>) returns (r: Outcome<string>)
      requires Represents(node, t, nodes)
      ensures r == StringOf(q, t)
      decreases t, 2
    {
      hide Apply, FormatInt;
      match node.value {
        case Number(v) => r := Value(FormatInt(v));
        case Identity(name) => r := Value(Get(q.server, name));
        case Text(text) => r := Value(text);
        case Empty => r := Failed;
        case Operator(_) =>
          var v := SwitchFunction(node, t, nodes);
          r := if v.Panics() then v.Propagate() else Value(FormatInt(v.value));
        case Group =>
          var v := Eval(node, t, nodes);
          r := if v.Panics() then v.Propagate() else Value(FormatInt(v.value));
      }
    }

    method GetNumber(node: TreeNode, ghost t: Tree, ghost nodes: set<TreeNode>) returns (r: Outcome<int>)
      requires Represents(node, t, nodes)
      ensures r == NumberOf(q, t)
      decreases t, 2
    {
      hide Apply, ToInt64;
      match node.value {
        case Number(v) => r := Value(v);
        case Identity(name) => r := ToInt64(Get(q.server, name));
        case Text(text) => r := ToInt64(text);
        case Empty => r := Failed;
        case Operator(_) => r := SwitchFunction(node, t, nodes);
        case Group => r := Eval(node, t, nodes);
      }
    }

    method EvalEquals(args: seq<TreeNode>, ghost ts: seq<Tree>, ghost nodes: set<TreeNode>) returns (r: Outcome<int>)
      requires AllRepresent(args, ts, nodes)
      ensures r == Equals(q, ts)
      decreases ts, 0
    {
      hide StringOf, NormalizeMKWRegion;
      if |args| < 2 {
        return Failed;
      }
      if |args| == 2 && args[0].value == Identity("rk") && q.game == "mariokartwii" {
        var value := GetString(args[1], ts[1], nodes);
        if value.Panics() {
          return value.Propagate();
        }
        return Value(Truth(NormalizeMKWRegion(Get(q.server, "rk")) == NormalizeMKWRegion(value.value)));
      }
      var first := GetString(args[0], ts[0], nodes);
      if first.Panics() {
        return first.Propagate();
      }
      r := CompareAll(first.value, true, args, ts, nodes);
    }

    method EvalNotEquals(args: seq<TreeNode>, ghost ts: seq<Tree>, ghost nodes: set<TreeNode>) returns (r: Outcome<int>)
      requires AllRepresent(args, ts, nodes)
      ensures r == NotEquals(q, ts)
      decreases ts, 0
    {
      hide StringOf;
      if |args| < 2 {
        return Failed;
      }
      var first := GetString(args[0], ts[0], nodes);
      if first.Panics() {
        return first.Propagate();
      }
      r := CompareAll(first.value, false, args, ts, nodes);
    }

    /** The loop over the arguments after the first. */
    method CompareAll(first: string, same: bool, args: seq<TreeNode>, ghost ts: seq<Tree>, ghost nodes: set<TreeNode>) returns (r: Outcome<int>)
      requires AllRepresent(args, ts, nodes) && |args| > 0
      ensures r == AllAre(q, first, same, ts[1..])
      decreases ts, -1
    {
      hide StringOf, Represents;
      for i := 1 to |args|
        invariant AllAre(q, first, same, ts[i..]) == AllAre(q, first, same, ts[1..])
      {
        assert ts[i..][0] == ts[i] && ts[i..][1..] == ts[i + 1..];
        var s := GetString(args[i], ts[i], nodes);
        if s.Panics() {
          return s.Propagate();
        }
        if (first == s.value) != same {
          return Value(0);
        }
      }
      return Value(1);
    }

    method EvalAnd(args: seq<TreeNode>, ghost ts: seq<Tree>, ghost nodes: set<TreeNode>) returns (r: Outcome<int>)
      requires AllRepresent(args, ts, nodes)
      ensures r == if |ts| < 2 then Failed else AllTrue(q, ts)
      decreases ts, 0
    {
      hide StringOf, Represents;
      if |args| < 2 {
        return Failed;
      }
      assert ts[0..] == ts;
      for i := 0 to |args|
        invariant AllTrue(q, ts[i..]) == AllTrue(q, ts)
      {
        assert ts[i..][0] == ts[i] && ts[i..][1..] == ts[i + 1..];
        var s := GetString(args[i], ts[i], nodes);
        if s.Panics() {
          return s.Propagate();
        }
        if s.value == "0" {
          return Value(0);
        }
      }
      return Value(1);
    }

    method EvalOr(args: seq<TreeNode>, ghost ts: seq<Tree>, ghost nodes: set<TreeNode>) returns (r: Outcome<int>)
      requires AllRepresent(args, ts, nodes)
      ensures r == if |ts| < 2 then Failed else AnyTrue(q, ts)
      decreases ts, 0
    {
      hide StringOf, Represents;
      if |args| < 2 {
        return Failed;
      }
      assert ts[0..] == ts;
      for i := 0 to |args|
        invariant AnyTrue(q, ts[i..]) == AnyTrue(q, ts)
      {
        assert ts[i..][0] == ts[i] && ts[i..][1..] == ts[i + 1..];
        var s := GetString(args[i], ts[i], nodes);
        if s.Panics() {
          return s.Propagate();
        }
        if s.value != "0" {
          return Value(1);
        }
      }
      return Value(0);
    }

    method EvalMathOperator(operator: string, args: seq<TreeNode>, ghost ts: seq<Tree>, ghost nodes: set<TreeNode>) returns (r: Outcome<int>)
      requires AllRepresent(args, ts, nodes)
      ensures r == MathOperator(q, operator, ts)
      decreases ts, 0
    {
      hide NumberOf, Math;
      if |args| < 2 {
        return Failed;
      }
      if |args| == 2 && RatingIgnored(q, args[0].value) {
        return Value(1);
      }
      var first := GetNumber(args[0], ts[0], nodes);
      if first.Panics() {
        return first.Propagate();
      }
      var answ := first.value;
      for i := 1 to |args|
        invariant MathFold(q, operator, answ, ts[i..]) == MathFold(q, operator, first.value, ts[1..])
      {
        assert ts[i..][0] == ts[i] && ts[i..][1..] == ts[i + 1..];
        var v := GetNumber(args[i], ts[i], nodes);
        if v.Panics() {
          return v.Propagate();
        }
        answ := Math(operator, answ, v.value);
      }
      return Value(answ);
    }

    method EvalLike(args: seq<TreeNode>, ghost ts: seq<Tree>, ghost nodes: set<TreeNode>) returns (r: Outcome<int>)
      requires AllRepresent(args, ts, nodes)
      ensures r == if |ts| == 2 then FilterEval.Like(q, StringOf(q, ts[0]), StringOf(q, ts[1])) else Failed
      decreases ts, 0
    {
      hide StringOf, Represents;
      if |args| != 2 {
        return Failed;
      }
      var a := GetString(args[0], ts[0], nodes);
      if a.Panics() {
        return a.Propagate();
      }
      var b := GetString(args[1], ts[1], nodes);
      if b.Panics() {
        return b.Propagate();
      }
      return q.like(a.value, b.value);
    }
  }
}
