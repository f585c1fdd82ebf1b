/**
 serverbrowser/filter/treenode.go and the tree surgery of parse.go: a doubly linked tree
 that grows at the bottom of its rightmost spine, where the current node is.
 */
module FilterNodes {
  import opened MatchCommand
  import opened FilterTokens
  import opened FilterTree

  class TreeNode {
    const value: Token
    var parent: TreeNode?
    var items: seq<TreeNode>
    /** The subtree below this node as a value, once the parser has left it. */
    ghost var shape: Tree

    constructor (value: Token)
      ensures this.value == value && parent == null && items == [] && shape == Node(value, [])
    {
      this.value, parent, items, shape := value, null, [], Node(value, []);
    }

    function LastElement(): TreeNode?
      reads this
    {
      if items == [] then null else items[|items| - 1]
    }

    method IndexOf(element: TreeNode) returns (index: int)
      ensures element !in items ==> index == -1
      ensures element in items ==> 0 <= index < |items| && items[index] == element && element !in items[..index]
    {
      for i := 0 to |items|
        invariant element !in items[..i]
      {
        if items[i] == element {
          return i;
        }
      }
      return -1;
    }

    /** The source panics when the element is attached already; the parser never does that. */
    method AddElement(element: TreeNode)
      requires element.parent == null
      modifies this`items, element`parent
      ensures element.parent == this && items == old(items) + [element]
    {
      element.parent := this;
      items := items + [element];
    }

    method Add(value: Token) returns (element: TreeNode)
      modifies this`items
      ensures fresh(element) && element.value == value && element.parent == this && element.items == []
      ensures element.shape == Node(value, []) && items == old(items) + [element]
    {
      element := new TreeNode(value);
      AddElement(element);
    }

    /** A new node takes this one's place, with this one as its only child. */
    method Push(value: Token) returns (element: TreeNode)
      requires parent != null ==> this in parent.items && parent != this
      modifies this`parent, if parent == null then {} else {parent}
      ensures fresh(element) && element.value == value && element.items == [this] && parent == element
      ensures element.parent == old(parent)
      ensures old(parent) != null ==>
                && |old(parent).items| == |old(parent.items)|
                && old(parent).shape == old(parent.shape) && old(parent).parent == old(parent.parent)
                && exists k :: Replaced(old(parent.items), old(parent).items, k, this, element)
    {
      element := new TreeNode(value);
      if parent != null {
        var above := parent;
        var index := above.IndexOf(this);
        above.items := above.items[index := element];
        element.parent := above;
        parent := null;
        assert Replaced(old(parent.items), above.items, index, this, element);
      }
      element.AddElement(this);
    }
  }

  predicate Replaced(before: seq<TreeNode>, after: seq<TreeNode>, k: int, old_: TreeNode, new_: TreeNode) {
    0 <= k < |before| && before[k] == old_ && old_ !in before[..k] && after == before[k := new_]
  }

  predicate Distinct(items: seq<TreeNode>) {
    forall i, j :: 0 <= i < j < |items| ==> items[i] != items[j]
  }

  /** The subtrees of the first nodes of a list. */
  ghost predicate Shapes(kids: seq<Tree>, items: seq<TreeNode>, nodes: set<TreeNode>)
    reads nodes
  {
    |kids| <= |items| && forall k :: 0 <= k < |kids| ==> items[k] in nodes && kids[k] == items[k].shape
  }

  /** The nodes below n form the tree t. */
  ghost predicate Represents(n: TreeNode, t: Tree, nodes: set<TreeNode>)
    reads n, nodes
    decreases t
  {
    && t.token == n.value && |t.kids| == |n.items|
    && forall k :: 0 <= k < |t.kids| ==> n.items[k] in nodes && Represents(n.items[k], t.kids[k], nodes)
  }

  /** The subtree of the node at one depth of the spine. */
  function FromFrame(frames: seq<Frame>, i: nat): Tree
    requires i < |frames|
    decreases |frames| - i
  {
    Node(frames[i].token, frames[i].kids + if i == |frames| - 1 then [] else [FromFrame(frames, i + 1)])
  }

  lemma {:induction false} FromFrameUp(frames: seq<Frame>, i: nat)
    requires i < |frames| - 1
    ensures FromFrame(Up(frames), i) == FromFrame(frames, i)
    decreases |frames| - i
  {
    if i < |frames| - 2 {
      FromFrameUp(frames, i + 1);
    } else {
      assert FromFrame(frames, i + 1).kids == Top(frames).kids;
    }
  }

  lemma {:induction false} PlugFromRoot(frames: seq<Frame>)
    requires frames != []
    ensures Plug(frames) == FromFrame(frames, 0)
    decreases |frames|
  {
    if |frames| == 1 {
      assert frames[0].kids + [] == frames[0].kids;
    } else {
      PlugFromRoot(Up(frames));
      FromFrameUp(frames, 0);
    }
  }

  class Builder {
    const root: TreeNode
    var curr: TreeNode
    /** From the root down to the current node. */
    ghost var spine: seq<TreeNode>
    ghost var nodes: set<TreeNode>
    ghost var frames: seq<Frame>

    /** Parents and children agree, and the root alone has no parent. */
    ghost predicate Linked(n: TreeNode)
      reads this, nodes, n
    {
      && Distinct(n.items)
      && (forall c :: c in n.items ==> c in nodes && c.parent == n)
      && (n.parent == null <==> n == root)
      && (n.parent != null ==> n.parent in nodes && n in n.parent.items)
    }

    ghost predicate AllLinked()
      reads this, nodes
    {
      forall n :: n in nodes ==> Linked(n)
    }

    /** The spine runs from the root to the current node along last children. */
    ghost predicate OnRightmostSpine()
      reads this, nodes
    {
      && spine != [] && spine[0] == root && spine[|spine| - 1] == curr
      && (forall i :: 0 <= i < |spine| ==> spine[i] in nodes)
      && Distinct(spine)
      && (forall i :: 0 < i < |spine| ==> spine[i - 1].LastElement() == spine[i])
    }

    ghost predicate Finished(n: TreeNode)
      reads this, nodes, n
    {
      n.shape.token == n.value && |n.shape.kids| == |n.items| && Shapes(n.shape.kids, n.items, nodes)
    }

    ghost predicate LeftFinished()
      reads this, nodes
    {
      forall n :: n in nodes && n !in spine ==> Finished(n)
    }

    ghost predicate FrameOf(f: Frame, n: TreeNode, open: bool)
      reads this, nodes, n
    {
      f.token == n.value && |f.kids| == |n.items| - (if open then 1 else 0) && Shapes(f.kids, n.items, nodes)
    }

    ghost predicate Framed()
      reads this, nodes
    {
      && |frames| == |spine|
      && forall i :: 0 <= i < |spine| ==> spine[i] in nodes && FrameOf(frames[i], spine[i], i < |spine| - 1)
    }

    ghost predicate Valid()
      reads this, nodes
    {
      OnRightmostSpine() && AllLinked() && LeftFinished() && Framed() && Proper(frames)
    }

    constructor ()
      ensures Valid() && frames == START && fresh(nodes)
    {
      var r := new TreeNode(Empty);
      root, curr := r, r;
      spine, nodes, frames := [r], {r}, START;
    }

    // ---------- A new child of the current node

    /** `e` is new at the end of c's children; no other node changed. */
    twostate predicate Grown(c: TreeNode, new e: TreeNode)
      reads this, nodes, c, e
    {
      && root in old(nodes) && c in old(nodes) && nodes == old(nodes) + {e} && e !in old(nodes)
      && e.parent == c && e.items == [] && e.shape == Node(e.value, [])
      && c.items == old(c.items) + [e]
      && (forall n :: n in old(nodes) && n != c ==> n.items == old(n.items))
      && (forall n :: n in old(nodes) ==> n.parent == old(n.parent) && n.shape == old(n.shape))
    }

    twostate lemma GrownLinked(c: TreeNode, new e: TreeNode)
      requires Grown(c, e) && old(AllLinked())
      ensures AllLinked()
    {
      forall n | n in nodes
        ensures Linked(n)
      {
        if n != e {
          assert old(Linked(n));
        }
      }
    }

    twostate lemma GrownFinished(c: TreeNode, new e: TreeNode)
      requires Grown(c, e) && old(LeftFinished()) && c in spine
      requires forall n :: n in old(spine) ==> n in spine
      ensures LeftFinished()
    {
      forall n | n in nodes && n !in spine
        ensures Finished(n)
      {
        assert n != e ==> old(Finished(n));
      }
    }

    /** The frames of other nodes stay as they were, and that of c gets a child to leave open. */
    twostate lemma GrownFrame(c: TreeNode, new e: TreeNode, new f: Frame, new n: TreeNode, new open: bool)
      requires Grown(c, e) && n in old(nodes) && old(FrameOf(f, n, open))
      ensures n != c ==> FrameOf(f, n, open)
      ensures n == c && !open ==> FrameOf(f, n, true) && FrameOf(Frame(f.token, f.kids + [e.shape]), n, false)
      ensures FrameOf(Frame(e.value, []), e, false)
    {
      if n == c && !open {
        assert forall k :: 0 <= k < |f.kids| ==> n.items[k] == old(n.items)[k];
      }
    }

    twostate lemma GrownSpine(c: TreeNode, new e: TreeNode)
      requires Grown(c, e) && old(OnRightmostSpine()) && c == old(curr)
      ensures forall i :: 0 <= i < |old(spine)| ==> old(spine)[i] in nodes
      ensures forall i :: 0 < i < |old(spine)| ==> old(spine)[i - 1].LastElement() == old(spine)[i]
      ensures e !in old(spine) && c.LastElement() == e && c in old(spine)
    {
      forall i | 0 < i < |old(spine)|
        ensures old(spine)[i - 1].LastElement() == old(spine)[i]
      {
        assert old(spine)[i - 1] != old(spine)[|old(spine)| - 1];
      }
    }

    method AddLeaf(token: Token)
      requires Valid() && token.IsValue()
      modifies this`nodes, this`frames, curr`items
      ensures Valid() && frames == AddKid(old(frames), Node(token, []))
      ensures fresh(nodes - old(nodes))
    {
      hide IsOperator, Finished, FrameOf, Linked, LeftFinished;
      var element := curr.Add(token);
      nodes := nodes + {element};
      frames := AddKid(frames, Node(token, []));
      GrownLinked(curr, element);
      GrownSpine(curr, element);
      GrownFinished(curr, element);
      forall i | 0 <= i < |spine|
        ensures FrameOf(frames[i], spine[i], i < |spine| - 1)
      {
        GrownFrame(curr, element, old(frames)[i], spine[i], i < |spine| - 1);
      }
    }

    method OpenBracket()
      requires Valid()
      modifies this`curr, this`spine, this`nodes, this`frames, curr`items
      ensures Valid() && frames == old(frames) + [Frame(Group, [])]
      ensures fresh(nodes - old(nodes))
    {
      hide IsOperator, Finished, FrameOf, Linked, LeftFinished, Framed, Proper;
      var above := curr;
      PutProper(frames, Open);
      FramesOnSpine();
      curr := curr.Add(Group);
      nodes := nodes + {curr};
      spine := spine + [curr];
      frames := frames + [Frame(Group, [])];
      GrownLinked(above, curr);
      GrownSpine(above, curr);
      GrownFinished(above, curr);
      OpenedFramed(above);
    }

    lemma FramesOnSpine()
      requires Framed()
      ensures |frames| == |spine|
    {
    }

    twostate lemma OpenedFramed(c: TreeNode)
      requires old(OnRightmostSpine() && Framed()) && c == old(curr) && Grown(c, curr) && curr.value == Group
      requires spine == old(spine) + [curr] && frames == old(frames) + [Frame(Group, [])]
      requires forall i :: 0 <= i < |old(spine)| ==> old(spine)[i] in nodes
      ensures Framed()
    {
      hide FrameOf, Linked;
      forall i | 0 <= i < |spine|
        ensures FrameOf(frames[i], spine[i], i < |spine| - 1)
      {
        var j := if i == |spine| - 1 then i - 1 else i;
        GrownFrame(c, curr, old(frames)[j], old(spine)[j], j < |old(spine)| - 1);
      }
    }

    // ---------- Back to the parent

    /** The current node became its parent, and is finished now. */
    twostate predicate WentUp()
      reads this, nodes
    {
      && |old(spine)| >= 2 && old(curr) in old(nodes) && nodes == old(nodes) && spine == old(spine)[..|old(spine)| - 1]
      && curr == old(spine)[|old(spine)| - 2] && |old(frames)| == |old(spine)|
      && old(curr).shape == Node(old(curr).value, old(frames)[|old(frames)| - 1].kids)
      && (forall n :: n in nodes ==> n.items == old(n.items) && n.parent == old(n.parent))
      && (forall n :: n in nodes && n != old(curr) ==> n.shape == old(n.shape))
    }

    /** The children of a node other than the one just left keep their shapes. */
    twostate lemma UpShapes(new kids: seq<Tree>, n: TreeNode)
      requires WentUp() && n in nodes && old(Shapes(kids, n.items, nodes))
      requires forall k :: 0 <= k < |kids| ==> n.items[k] != old(curr)
      ensures Shapes(kids, n.items, nodes)
    {
    }

    lemma NotAmong(child: TreeNode, n: TreeNode)
      requires n in nodes && Linked(n) && child.parent != n
      ensures forall k :: 0 <= k < |n.items| ==> n.items[k] != child
    {
    }

    twostate lemma UpLinked()
      requires WentUp() && old(AllLinked())
      ensures AllLinked()
    {
      forall n | n in nodes
        ensures Linked(n)
      {
        assert old(Linked(n));
      }
    }

    twostate lemma UpSpine()
      requires WentUp() && old(OnRightmostSpine() && AllLinked())
      ensures OnRightmostSpine()
      ensures old(curr).parent == curr && curr.LastElement() == old(curr) && old(curr) !in spine
      ensures Linked(old(curr)) && old(curr).parent != old(curr)
    {
      hide Linked;
      UpLinked();
      var up := old(spine)[|old(spine)| - 2];
      assert old(spine)[|old(spine)| - 1] == old(curr) && up in old(nodes);
      assert up.LastElement() == old(curr);
      assert Linked(up) && Linked(old(curr));
      ParentOf(up, old(curr));
    }

    lemma ParentOf(n: TreeNode, child: TreeNode)
      requires Linked(n) && n.LastElement() == child
      ensures child.parent == n
    {
    }

    twostate lemma UpFinished()
      requires WentUp() && old(OnRightmostSpine() && AllLinked() && LeftFinished() && Framed())
      ensures LeftFinished()
    {
      hide Linked;
      UpSpine();
      UpLinked();
      forall n | n in nodes && n !in spine
        ensures Finished(n)
      {
        if n == old(curr) {
          assert old(FrameOf(frames[|frames| - 1], spine[|spine| - 1], false));
          NotAmong(n, n);
          UpShapes(n.shape.kids, n);
        } else {
          assert old(Finished(n));
          NotAmong(old(curr), n);
          UpShapes(n.shape.kids, n);
        }
      }
    }

    twostate lemma UpFramed()
      requires WentUp() && old(OnRightmostSpine() && AllLinked() && Framed())
      requires frames == Up(old(frames))
      ensures Framed()
    {
      hide Linked;
      UpSpine();
      UpLinked();
      forall i | 0 <= i < |spine|
        ensures FrameOf(frames[i], spine[i], i < |spine| - 1)
      {
        UpFrame(i);
      }
    }

    twostate lemma UpFrame(new i: nat)
      requires WentUp() && old(Framed() && OnRightmostSpine()) && i < |spine| && AllLinked() && OnRightmostSpine()
      requires old(curr).parent == curr && curr.LastElement() == old(curr) && frames == Up(old(frames))
      ensures FrameOf(frames[i], spine[i], i < |spine| - 1)
    {
      var n := spine[i];
      var f := old(frames)[i];
      assert old(FrameOf(frames[i], spine[i], true));
      assert Linked(n);
      if i < |spine| - 1 {
        NotAmong(old(curr), n);
        UpShapes(f.kids, n);
      } else {
        assert forall k :: 0 <= k < |f.kids| ==> n.items[k] != n.items[|n.items| - 1];
        UpShapes(f.kids, n);
        assert old(FrameOf(frames[|frames| - 1], spine[|spine| - 1], false));
        assert old(curr).shape == Node(Top(old(frames)).token, Top(old(frames)).kids);
      }
    }

    method GoUp()
      requires Valid() && curr.parent != null
      modifies this`curr, this`spine, this`frames, curr`shape
      ensures Valid() && old(|frames|) >= 2 && frames == Up(old(frames))
      ensures curr == old(curr.parent) && nodes == old(nodes)
    {
      hide Linked, Finished, FrameOf, LeftFinished, Framed, Proper;
      SpineParent();
      curr.shape := Node(curr.value, Top(frames).kids);
      curr := curr.parent;
      spine := spine[..|spine| - 1];
      frames := Up(frames);
      UpLinked();
      UpSpine();
      UpFinished();
      UpFramed();
      UpProper(old(frames));
    }

    /** The parent of the current node is the one above it on the spine, and only the root has none. */
    lemma SpineParent()
      requires OnRightmostSpine() && AllLinked() && Framed() && Proper(frames)
      ensures |frames| == |spine| && (curr.parent == null <==> |spine| == 1)
      ensures |spine| >= 2 ==> curr.parent == spine[|spine| - 2] && curr.parent.value == frames[|spine| - 2].token
      ensures curr.value == Top(frames).token
    {
      assert Linked(curr) && FrameOf(frames[|spine| - 1], spine[|spine| - 1], false);
      if |spine| >= 2 {
        assert Linked(spine[|spine| - 2]);
        assert FrameOf(frames[|spine| - 2], spine[|spine| - 2], true);
      }
    }

    // ---------- A new operator above a last child

    /** `e` took the place of x as the last child of a, and has x as its only child. */
    twostate predicate Pushed(a: TreeNode, new x: TreeNode, new e: TreeNode)
      reads this, nodes, a, x, e
    {
      && root in old(nodes) && a in old(nodes) && x in old(nodes) && x != a && nodes == old(nodes) + {e} && e !in old(nodes)
      && old(x.parent) == a && old(a.LastElement()) == x
      && e.parent == a && e.items == [x] && x.parent == e
      && a.items == old(a.items)[|old(a.items)| - 1 := e]
      && (forall n :: n in old(nodes) && n != a ==> n.items == old(n.items))
      && (forall n :: n in old(nodes) && n != x ==> n.parent == old(n.parent) && n.shape == old(n.shape))
    }

    twostate lemma PushedLinked(a: TreeNode, new x: TreeNode, new e: TreeNode)
      requires Pushed(a, x, e) && old(AllLinked())
      ensures AllLinked()
    {
      hide Linked;
      forall n | n in nodes
        ensures Linked(n)
      {
        if n in old(nodes) {
          assert old(Linked(n));
        }
        PushedLink(a, x, e, n);
      }
    }

    twostate lemma PushedLink(a: TreeNode, new x: TreeNode, new e: TreeNode, new n: TreeNode)
      requires Pushed(a, x, e) && n in nodes && (n in old(nodes) ==> old(Linked(n))) && old(Linked(x))
      ensures Linked(n)
    {
      if n == a {
        forall i, j | 0 <= i < j < |a.items|
          ensures a.items[i] != a.items[j]
        {
          assert old(a.items)[i] in old(a.items);
        }
      }
      assert a.items[|a.items| - 1] == e;
      if n != e && n.parent == a && n != x {
        var k :| 0 <= k < |old(a.items)| && old(a.items)[k] == n;
        assert a.items[k] == n;
      }
    }

    twostate lemma PushedSpine(a: TreeNode, new x: TreeNode, new e: TreeNode, new depth: nat)
      requires Pushed(a, x, e) && old(OnRightmostSpine()) && 0 < depth <= |old(spine)| && old(spine)[depth - 1] == a
      requires spine == old(spine)[..depth] + [e] && curr == e
      ensures OnRightmostSpine()
    {
      forall i | 0 < i < |spine|
        ensures spine[i - 1].LastElement() == spine[i]
      {
        if i < depth {
          assert old(spine)[i - 1] != old(spine)[depth - 1];
          assert old(spine[i - 1].LastElement() == spine[i]);
        }
      }
    }

    /** The shapes of the children of a node other than a. */
    twostate lemma PushedShapes(a: TreeNode, new x: TreeNode, new e: TreeNode, new n: TreeNode, new kids: seq<Tree>)
      requires Pushed(a, x, e) && n in old(nodes) && old(Linked(n)) && old(Shapes(kids, n.items, nodes))
      requires n != a || |kids| < |n.items|
      ensures Shapes(kids, n.items, nodes)
    {
      if n == a {
        forall k | 0 <= k < |kids|
          ensures a.items[k] == old(a.items)[k] && a.items[k] != x
        {
          assert old(a.items)[k] != old(a.items)[|old(a.items)| - 1];
        }
      } else {
        forall k | 0 <= k < |kids|
          ensures n.items[k] != x
        {
          assert old(n.items)[k] in old(n.items);
        }
      }
    }

    twostate lemma PushedFinished(a: TreeNode, new x: TreeNode, new e: TreeNode)
      requires Pushed(a, x, e) && old(AllLinked() && LeftFinished()) && a in spine && e in spine
      requires forall n :: n in old(nodes) && n !in spine && n in old(spine) ==> n == x
      requires old(frames) != []
      requires x in old(spine) ==> old(FrameOf(frames[|frames| - 1], x, false)) && x.shape == Node(Top(old(frames)).token, Top(old(frames)).kids)
      requires (x !in old(spine) ==> x.shape == old(x.shape))
      ensures LeftFinished()
    {
      hide Linked;
      forall n | n in nodes && n !in spine
        ensures Finished(n)
      {
        assert n !in old(spine) ==> old(Finished(n));
        assert old(Linked(n));
        PushedShapes(a, x, e, n, n.shape.kids);
      }
    }

    twostate lemma PushedFrame(a: TreeNode, new x: TreeNode, new e: TreeNode, new n: TreeNode, new f: Frame)
      requires Pushed(a, x, e) && n in old(nodes) && old(AllLinked() && FrameOf(f, n, true))
      ensures FrameOf(f, n, true)
    {
      assert old(Linked(n));
      PushedShapes(a, x, e, n, f.kids);
    }

    /** The last child of the current node goes under a new operator node, which becomes current. */
    method PushOperatorOnLast(operator: string)
      requires Valid() && IsOperator(operator) && curr.LastElement() != null
      modifies this`curr, this`spine, this`nodes, this`frames, nodes
      ensures Top(old(frames)).kids != []
      ensures Valid() && frames == PushOnLast(old(frames), operator)
      ensures fresh(nodes - old(nodes))
    {
      hide IsOperator, Linked, Finished, FrameOf, LeftFinished, Framed;
      var above := curr;
      var last := curr.LastElement();
      ReadyToPush(last);
      curr := last.Push(Operator(operator));
      LastReplaced(old(above.items), above.items, last, curr);
      nodes := nodes + {curr};
      spine := spine + [curr];
      frames := PushOnLast(frames, operator);
      PushedLinked(above, last, curr);
      PushedSpine(above, last, curr, |old(spine)|);
      PushedFinished(above, last, curr);
      PushedOnLastFramed(above, last);
    }

    lemma ReadyToPush(last: TreeNode)
      requires OnRightmostSpine() && AllLinked() && Framed() && Proper(frames) && curr.LastElement() == last
      ensures last in nodes && last.parent == curr && last in curr.items && Distinct(curr.items) && last != curr && last !in spine
      ensures Top(frames).kids != [] && Top(frames).kids[|Top(frames).kids| - 1] == last.shape && |frames| == |spine|
    {
      SpineParent();
      assert Linked(curr);
      assert FrameOf(frames[|spine| - 1], spine[|spine| - 1], false);
      forall i | 0 <= i < |spine|
        ensures spine[i] != last
      {
        assert Linked(spine[i]);
        if i > 0 {
          assert Linked(spine[i - 1]);
          ParentOf(spine[i - 1], spine[i]);
        }
      }
    }

    twostate lemma PushedOnLastFramed(a: TreeNode, new x: TreeNode)
      requires old(OnRightmostSpine() && AllLinked() && Framed()) && a == old(curr) && old(frames) != []
      requires Top(old(frames)).kids != [] && Top(old(frames)).kids[|Top(old(frames)).kids| - 1] == x.shape
      requires Pushed(a, x, curr) && spine == old(spine) + [curr]
      requires curr.value.Operator? && frames == PushOnLast(old(frames), curr.value.operator)
      ensures Framed()
    {
      hide Linked;
      forall i | 0 <= i < |spine|
        ensures FrameOf(frames[i], spine[i], i < |spine| - 1)
      {
        if i < |old(spine)| {
          assert old(FrameOf(frames[i], spine[i], i < |spine| - 1));
          PushedFrame(a, x, curr, spine[i], frames[i]);
        }
      }
    }

    /** The current node goes under a new operator node, which becomes current. */
    method PushOperatorOnCurrent(operator: string)
      requires Valid() && IsOperator(operator) && curr.parent != null
      modifies this`curr, this`spine, this`nodes, this`frames, nodes
      ensures Valid() && frames == PushOnCurrent(old(frames), operator)
      ensures fresh(nodes - old(nodes))
    {
      hide IsOperator, Linked, Finished, FrameOf, LeftFinished, Framed;
      var node := curr;
      ghost var above := curr.parent;
      CurrentPushable();
      node.shape := Node(node.value, Top(frames).kids);
      curr := node.Push(Operator(operator));
      LastReplaced(old(above.items), above.items, node, curr);
      nodes := nodes + {curr};
      spine := spine[..|spine| - 1] + [curr];
      frames := PushOnCurrent(frames, operator);
      PushedLinked(above, node, curr);
      PushedSpine(above, node, curr, |old(spine)| - 1);
      PushedFinished(above, node, curr);
      PushedOnCurrentFramed(above, node);
    }

    lemma CurrentPushable()
      requires OnRightmostSpine() && AllLinked() && Framed() && Proper(frames) && curr.parent != null
      ensures |spine| >= 2 && curr.parent == spine[|spine| - 2] && curr.parent != curr
      ensures curr in curr.parent.items && Distinct(curr.parent.items) && curr.parent.LastElement() == curr
      ensures |frames| == |spine| && curr.value == Top(frames).token && FrameOf(Top(frames), curr, false)
    {
      SpineParent();
      assert Linked(curr) && Linked(curr.parent);
      assert FrameOf(frames[|spine| - 1], spine[|spine| - 1], false);
    }

    twostate lemma PushedOnCurrentFramed(a: TreeNode, new x: TreeNode)
      requires old(OnRightmostSpine() && AllLinked() && Framed()) && |old(spine)| >= 2 && a == old(spine)[|old(spine)| - 2]
      requires Pushed(a, x, curr) && spine == old(spine)[..|old(spine)| - 1] + [curr]
      requires x.shape == Node(Top(old(frames)).token, Top(old(frames)).kids)
      requires curr.value.Operator? && frames == PushOnCurrent(old(frames), curr.value.operator)
      ensures Framed()
    {
      hide Linked;
      forall i | 0 <= i < |spine|
        ensures FrameOf(frames[i], spine[i], i < |spine| - 1)
      {
        if i < |old(spine)| - 1 {
          assert old(FrameOf(frames[i], spine[i], true));
          PushedFrame(a, x, curr, spine[i], frames[i]);
        }
      }
    }

    // ---------- parse.go

    /** The loop asks for a parent of every node it visits; there always is one. */
    method ClimbOperators()
      requires Valid() && curr.value.Operator?
      modifies this`curr, this`spine, this`frames, nodes`shape
      ensures Valid() && frames == Climb(old(frames)) && curr.parent != null && curr.value.Operator?
      ensures nodes == old(nodes)
    {
      hide AllLinked, OnRightmostSpine, LeftFinished, Framed, Proper, Up;
      AboveCurrent();
      while curr.parent.value.Operator?
        invariant Valid() && curr.parent != null && curr.value.Operator? && curr in nodes && nodes == old(nodes)
        invariant |frames| >= 2 && curr.parent.value == frames[|frames| - 2].token
        invariant Climb(frames) == Climb(old(frames))
        decreases |frames|
      {
        GoUp();
        AboveCurrent();
      }
    }

    lemma AboveCurrent()
      requires Valid()
      ensures curr.value == Top(frames).token && (curr.parent == null <==> |frames| == 1)
      ensures curr.parent != null ==> curr.parent.value == frames[|frames| - 2].token
      ensures curr.value.Operator? ==> curr.parent != null && IsOperator(curr.value.operator)
      ensures curr.LastElement() == null <==> Top(frames).kids == []
      ensures Proper(frames) && curr in nodes
    {
      SpineParent();
      assert FrameOf(frames[|spine| - 1], spine[|spine| - 1], false);
    }

    /** The result is false where the source panics. */
    method ParseOperator(operator: string) returns (ok: bool)
      requires Valid() && IsOperator(operator)
      modifies this`curr, this`spine, this`nodes, this`frames, nodes
      ensures Valid() && fresh(nodes - old(nodes))
      ensures PutOperator(old(frames), operator) == if ok then Some(frames) else None
    {
      hide AllLinked, OnRightmostSpine, LeftFinished, Framed, Proper, IsOperator, Level, PushOnLast, PushOnCurrent, Climb;
      AboveCurrent();
      var lastNode := curr.LastElement();
      if curr.value.Operator? {
        var have := curr.value.operator;
        if have == operator {
          return true;
        }
        if Level(operator) > Level(have) {
          if lastNode != null {
            PushOperatorOnLast(operator);
            return true;
          }
        }
        if Level(operator) < Level(have) {
          ClimbOperators();
        }
        PushOperatorOnCurrent(operator);
        return true;
      }
      if lastNode == null {
        return false;
      }
      PushOperatorOnLast(operator);
      return true;
    }

    method ParseCloseBracket() returns (ok: bool)
      requires Valid()
      modifies this`curr, this`spine, this`frames, nodes`shape
      ensures Valid() && nodes == old(nodes)
      ensures CloseBracket(old(frames)) == if ok then Some(frames) else None
    {
      hide AllLinked, OnRightmostSpine, LeftFinished, Framed, Up;
      while true
        invariant Valid() && nodes == old(nodes)
        invariant CloseBracket(frames) == CloseBracket(old(frames))
        decreases |frames|
      {
        AboveCurrent();
        if curr.value == Group {
          GoUp();
          return true;
        }
        if curr.parent == null {
          return false;
        }
        GoUp();
      }
    }

    // ---------- What was built

    lemma FinishedChild(n: TreeNode, k: nat)
      requires OnRightmostSpine() && AllLinked() && n in nodes && n !in spine && k < |n.items|
      ensures n.items[k] in nodes && n.items[k] !in spine
    {
      assert Linked(n);
      var c := n.items[k];
      assert Linked(root);
      forall i | 0 <= i < |spine|
        ensures spine[i] != c
      {
        if i > 0 {
          assert Linked(spine[i - 1]);
          ParentOf(spine[i - 1], spine[i]);
        }
      }
    }

    lemma {:induction false} FinishedRepresents(n: TreeNode)
      requires OnRightmostSpine() && AllLinked() && LeftFinished() && n in nodes && n !in spine
      ensures Represents(n, n.shape, nodes)
      decreases n.shape
    {
      assert Finished(n);
      forall k | 0 <= k < |n.items|
        ensures Represents(n.items[k], n.shape.kids[k], nodes)
      {
        FinishedChild(n, k);
        FinishedRepresents(n.items[k]);
      }
    }

    lemma {:induction false} SpineRepresents(i: nat)
      requires Valid() && i < |spine|
      ensures |spine| == |frames| && spine[i] in nodes && Represents(spine[i], FromFrame(frames, i), nodes)
      decreases |spine| - i
    {
      hide Proper, LeftFinished;
      var n, t := spine[i], FromFrame(frames, i);
      assert FrameOf(frames[i], n, i < |spine| - 1) && Linked(n);
      if i < |spine| - 1 {
        SpineRepresents(i + 1);
        assert n.LastElement() == spine[i + 1];
      }
      forall k | 0 <= k < |frames[i].kids|
        ensures Represents(n.items[k], t.kids[k], nodes)
      {
        OffSpine(i, k);
        FinishedRepresents(n.items[k]);
      }
    }

    /** Of a spine node's children only the last can be on the spine. */
    lemma OffSpine(i: nat, k: nat)
      requires OnRightmostSpine() && AllLinked() && i < |spine| && k < |spine[i].items|
      requires i < |spine| - 1 ==> k < |spine[i].items| - 1
      ensures spine[i].items[k] !in spine
    {
      var c := spine[i].items[k];
      assert Linked(spine[i]) && Linked(root);
      forall j | 0 <= j < |spine|
        ensures spine[j] != c
      {
        if j > 0 {
          assert Linked(spine[j - 1]);
          ParentOf(spine[j - 1], spine[j]);
          if j == i + 1 {
            assert spine[i].LastElement() == spine[j];
          }
        }
      }
    }

    /** The linked tree below the root is the plugged-up tree of the frames. */
    lemma RootRepresents()
      requires Valid()
      ensures root in nodes && Represents(root, Plug(frames), nodes)
    {
      SpineRepresents(0);
      PlugFromRoot(frames);
    }
  }

  lemma LastReplaced(before: seq<TreeNode>, after: seq<TreeNode>, last: TreeNode, e: TreeNode)
    requires Distinct(before) && before != [] && before[|before| - 1] == last
    requires exists k :: Replaced(before, after, k, last, e)
    ensures after == before[|before| - 1 := e]
  {
  }
}
