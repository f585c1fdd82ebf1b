/** serverbrowser/filter/eval.go: the value of a filter tree for one server's fields. */
module FilterEval {
  import opened MatchCommand
  import opened Decimal
  import opened Qr2Objects
  import opened FilterTokens
  import opened FilterTree

  /**
   Failed is a panic with a message, which Eval recovers into an error; Crashed is a panic
   with an error value, which the recovery itself cannot convert to a string.
   */
  datatype Outcome<+T> = Value(value: T) | Failed | Crashed {
    predicate Panics() {
      !Value?
    }

    /** The same error at another type. */
    function Propagate<U>(): Outcome<U>
      requires Panics()
    {
      if Failed? then Failed else Crashed
    }
  }

  /** `like` stands for the pattern match, which uses a regular expression library. */
  datatype Query = Query(server: map<string, string>, game: string, ignorevr: bool, like: (string, string) -> Outcome<int>)

  function Truth(b: bool): int {
    if b then 1 else 0
  }

  function ToInt64(s: string): Outcome<int> {
    var v := ParseInt64(s);
    if v.None? then Crashed else Value(v.value)
  }

  // ---------- Arithmetic on 64-bit integers

  const WORD: int := 0x1_0000_0000_0000_0000

  function Wrap64(n: int): int {
    var m := n % WORD;
    if m >= WORD / 2 then m - WORD else m
  }

  /** The lowest n bits of the bitwise combination of two two's complement numbers. */
  function Bitwise(operator: string, a: int, b: int, n: nat): nat
    decreases n
  {
    if n == 0 then 0
    else
      var x, y := a % 2 == 1, b % 2 == 1;
      var bit := if operator == "&" then x && y else if operator == "|" then x || y else x != y;
      2 * Bitwise(operator, a / 2, b / 2, n - 1) + (if bit then 1 else 0)
  }

  predicate IsOrdering(operator: string) {
    operator == ">" || operator == "<" || operator == ">=" || operator == "<="
  }

  predicate IsMath(operator: string) {
    IsOrdering(operator) || operator in ["+", "-", "&", "|", "^"]
  }

  predicate Compare(operator: string, a: int, b: int) {
    if operator == ">" then a > b
    else if operator == "<" then a < b
    else if operator == ">=" then a >= b
    else a <= b
  }

  function Math(operator: string, a: int, b: int): int {
    if IsOrdering(operator) then Truth(Compare(operator, a, b))
    else if operator == "+" then Wrap64(a + b)
    else if operator == "-" then Wrap64(a - b)
    else Wrap64(Bitwise(operator, a, b, 64))
  }

  // ---------- What the operators on two integers mean

  /** Bit k of a two's complement number. */
  predicate Bit(n: int, k: nat)
    decreases k
  {
    if k == 0 then n % 2 == 1 else Bit(n / 2, k - 1)
  }

  function Power2(k: nat): (p: nat)
    ensures p >= 1
  {
    if k == 0 then 1 else 2 * Power2(k - 1)
  }

  lemma {:induction false} BitwiseBit(operator: string, a: int, b: int, n: nat, k: nat)
    requires k < n
    ensures operator == "&" ==> (Bit(Bitwise(operator, a, b, n), k) <==> Bit(a, k) && Bit(b, k))
    ensures operator == "|" ==> (Bit(Bitwise(operator, a, b, n), k) <==> Bit(a, k) || Bit(b, k))
    ensures operator == "^" ==> (Bit(Bitwise(operator, a, b, n), k) <==> Bit(a, k) != Bit(b, k))
    decreases n
  {
    var rest := Bitwise(operator, a / 2, b / 2, n - 1);
    var r := Bitwise(operator, a, b, n);
    assert (r == 2 * rest || r == 2 * rest + 1) && r / 2 == rest;
    if k > 0 {
      BitwiseBit(operator, a / 2, b / 2, n - 1, k - 1);
    }
  }

  /** The lower bits do not change when a multiple of a power of two is added. */
  lemma {:induction false} LowBits(m: int, z: int, n: nat, k: nat)
    requires k < n
    ensures Bit(m + Power2(n) * z, k) == Bit(m, k)
    decreases n
  {
    var p := Power2(n - 1);
    assert Power2(n) * z == 2 * (p * z) by {
      assert (2 * p) * z == 2 * (p * z);
    }
    assert (m + 2 * (p * z)) / 2 == m / 2 + p * z && (m + 2 * (p * z)) % 2 == m % 2;
    if k > 0 {
      LowBits(m / 2, z, n - 1, k - 1);
    }
  }

  /** The result lies in 64 bits and differs from n by a multiple of 2^64. */
  lemma WrapMeans(n: int)
    ensures InInt64(Wrap64(n)) && (n - Wrap64(n)) % WORD == 0
  {
    var m := n % WORD;
    assert n == WORD * (n / WORD) + m;
    assert (WORD * (n / WORD)) % WORD == 0 && (WORD * (n / WORD + 1)) % WORD == 0;
  }

  lemma WordIsPower()
    ensures Power2(64) == WORD
  {
    hide Power2;
    PowerEight();
    PowerAdds(8, 8);
    PowerAdds(16, 16);
    PowerAdds(32, 32);
  }

  lemma PowerEight()
    ensures Power2(8) == 256
  {
  }

  lemma {:induction false} PowerAdds(j: nat, k: nat)
    ensures Power2(j + k) == Power2(j) * Power2(k)
  {
    if j > 0 {
      PowerAdds(j - 1, k);
      assert 2 * (Power2(j - 1) * Power2(k)) == (2 * Power2(j - 1)) * Power2(k);
    }
  }

  /** Sums and differences are taken modulo 2^64, bits one by one, and orderings are those of the integers. */
  lemma MathMeans(a: int, b: int, k: nat)
    ensures Math(">", a, b) == Truth(a > b) && Math("<", a, b) == Truth(a < b)
    ensures Math(">=", a, b) == Truth(a >= b) && Math("<=", a, b) == Truth(a <= b)
    ensures InInt64(Math("+", a, b)) && (a + b - Math("+", a, b)) % WORD == 0
    ensures InInt64(Math("-", a, b)) && (a - b - Math("-", a, b)) % WORD == 0
    ensures k < 64 ==> (Bit(Math("&", a, b), k) <==> Bit(a, k) && Bit(b, k))
    ensures k < 64 ==> (Bit(Math("|", a, b), k) <==> Bit(a, k) || Bit(b, k))
    ensures k < 64 ==> (Bit(Math("^", a, b), k) <==> Bit(a, k) != Bit(b, k))
  {
    hide Bit, Bitwise, Wrap64, Power2;
    WrapMeans(a + b);
    WrapMeans(a - b);
    if k < 64 {
      BitwiseBit("&", a, b, 64, k);
      BitwiseBit("|", a, b, 64, k);
      BitwiseBit("^", a, b, 64, k);
      WrapBit(Bitwise("&", a, b, 64), k);
      WrapBit(Bitwise("|", a, b, 64), k);
      WrapBit(Bitwise("^", a, b, 64), k);
    }
  }

  lemma WrapBit(n: int, k: nat)
    requires k < 64
    ensures Bit(Wrap64(n), k) == Bit(n, k)
  {
    hide Bit, Power2;
    WrapMeans(n);
    WordIsPower();
    var z := (Wrap64(n) - n) / WORD;
    assert Wrap64(n) == n + WORD * z;
    LowBits(n, z, 64, k);
  }

  // ---------- Trees

  function StringOf(q: Query, t: Tree): Outcome<string>
    decreases t, 1
  {
    match t.token
    case Number(v) => Value(FormatInt(v))
    case Identity(name) => Value(Get(q.server, name))
    case Text(text) => Value(text)
    case Empty => Failed
    case _ =>
      var v := NumberOf(q, t);
      if v.Panics() then v.Propagate() else Value(FormatInt(v.value))
  }

  function NumberOf(q: Query, t: Tree): Outcome<int>
    decreases t, 0
  {
    match t.token
    case Number(v) => Value(v)
    case Identity(name) => ToInt64(Get(q.server, name))
    case Text(text) => ToInt64(text)
    case Operator(operator) => Apply(q, Lower(operator), t.kids)
    case Group => EvalFirst(q, t.kids)
    case Empty => Failed
  }

  /** eval looks at the first child only. */
  function EvalFirst(q: Query, kids: seq<Tree>): Outcome<int>
    decreases kids, 0
  {
    if kids == [] then Failed else NumberOf(q, kids[0])
  }

  function Apply(q: Query, operator: string, args: seq<Tree>): Outcome<int>
    decreases args, 2
  {
    if operator == "=" || operator == "==" then Equals(q, args)
    else if operator == "!=" then NotEquals(q, args)
    else if IsMath(operator) then MathOperator(q, operator, args)
    else if |args| < 2 then Failed
    else if operator == "and" || operator == "&&" then AllTrue(q, args)
    else if operator == "or" || operator == "||" then AnyTrue(q, args)
    else if operator == "like" && |args| == 2 then Like(q, StringOf(q, args[0]), StringOf(q, args[1]))
    else Failed
  }

  function Like(q: Query, a: Outcome<string>, b: Outcome<string>): Outcome<int> {
    if a.Panics() then a.Propagate() else if b.Panics() then b.Propagate() else q.like(a.value, b.value)
  }

  function Equals(q: Query, args: seq<Tree>): Outcome<int>
    decreases args, 1
  {
    if |args| < 2 then Failed
    else if |args| == 2 && args[0].token == Identity("rk") && q.game == "mariokartwii" then
      var b := StringOf(q, args[1]);
      if b.Panics() then b.Propagate() else Value(Truth(NormalizeMKWRegion(Get(q.server, "rk")) == NormalizeMKWRegion(b.value)))
    else
      var a := StringOf(q, args[0]);
      if a.Panics() then a.Propagate() else AllAre(q, a.value, true, args[1..])
  }

  function NotEquals(q: Query, args: seq<Tree>): Outcome<int>
    decreases args, 1
  {
    if |args| < 2 then Failed
    else
      var a := StringOf(q, args[0]);
      if a.Panics() then a.Propagate() else AllAre(q, a.value, false, args[1..])
  }

  /** All arguments equal s, or all differ from it; stops at the first that does not. */
  function AllAre(q: Query, s: string, same: bool, args: seq<Tree>): Outcome<int>
    decreases args, 0
  {
    if args == [] then Value(1)
    else
      var b := StringOf(q, args[0]);
      if b.Panics() then b.Propagate()
      else if (s == b.value) != same then Value(0)
      else AllAre(q, s, same, args[1..])
  }

  function AllTrue(q: Query, args: seq<Tree>): Outcome<int>
    decreases args, 0
  {
    if args == [] then Value(1)
    else
      var s := StringOf(q, args[0]);
      if s.Panics() then s.Propagate()
      else if s.value == "0" then Value(0)
      else AllTrue(q, args[1..])
  }

  function AnyTrue(q: Query, args: seq<Tree>): Outcome<int>
    decreases args, 0
  {
    if args == [] then Value(0)
    else
      var s := StringOf(q, args[0]);
      if s.Panics() then s.Propagate()
      else if s.value != "0" then Value(1)
      else AnyTrue(q, args[1..])
  }

  /** Tests on the rating fields are ignored when there are too few players for them. */
  predicate RatingIgnored(q: Query, token: Token) {
    token.Identity? && (token.name == "ev" || token.name == "eb") && q.ignorevr && q.game == "mariokartwii"
  }

  function MathOperator(q: Query, operator: string, args: seq<Tree>): Outcome<int>
    decreases args, 1
  {
    if |args| < 2 then Failed
    else if |args| == 2 && RatingIgnored(q, args[0].token) then Value(1)
    else
      var a := NumberOf(q, args[0]);
      if a.Panics() then a.Propagate() else MathFold(q, operator, a.value, args[1..])
  }

  function MathFold(q: Query, operator: string, acc: int, args: seq<Tree>): Outcome<int>
    decreases args, 0
  {
    if args == [] then Value(acc)
    else
      var b := NumberOf(q, args[0]);
      if b.Panics() then b.Propagate() else MathFold(q, operator, Math(operator, acc, b.value), args[1..])
  }

  // ---------- What "or" means

  /** Argument k decides an "or": it is not "0", and all before it are. */
  ghost predicate Decides(q: Query, args: seq<Tree>, k: nat) {
    && k < |args| && StringOf(q, args[k]).Value? && StringOf(q, args[k]).value != "0"
    && forall j :: 0 <= j < k ==> StringOf(q, args[j]) == Value("0")
  }

  /** The answer is 1 if some argument decides it, 0 if all are "0", and a panic if one is met before that. */
  lemma {:induction false} AnyTrueMeans(q: Query, args: seq<Tree>)
    ensures AnyTrue(q, args) == Value(1) <==> exists k: nat :: Decides(q, args, k)
    ensures AnyTrue(q, args) == Value(0) <==> forall k :: 0 <= k < |args| ==> StringOf(q, args[k]) == Value("0")
    ensures AnyTrue(q, args).Value? ==> AnyTrue(q, args).value == 0 || AnyTrue(q, args).value == 1
    decreases |args|
  {
    hide StringOf, Decides;
    if args == [] {
      NoneDecides(q);
    } else {
      AnyTrueMeans(q, args[1..]);
      DecidesLater(q, args);
      assert forall k :: 0 < k < |args| ==> args[1..][k - 1] == args[k];
    }
  }

  lemma NoneDecides(q: Query)
    ensures forall k: nat :: !Decides(q, [], k)
  {
  }

  lemma DecidesLater(q: Query, args: seq<Tree>)
    requires args != []
    ensures Decides(q, args, 0) <==> StringOf(q, args[0]).Value? && StringOf(q, args[0]).value != "0"
    ensures (exists k: nat :: Decides(q, args, k)) <==>
              Decides(q, args, 0) || (StringOf(q, args[0]) == Value("0") && exists k: nat :: Decides(q, args[1..], k))
  {
    hide StringOf;
    if StringOf(q, args[0]) == Value("0") && exists k: nat :: Decides(q, args[1..], k) {
      var k: nat :| Decides(q, args[1..], k);
      forall j | 0 <= j < k + 1
        ensures StringOf(q, args[j]) == Value("0")
      {
        assert j > 0 ==> args[1..][j - 1] == args[j];
      }
      assert args[1..][k] == args[k + 1];
      assert Decides(q, args, k + 1);
    }
    if k: nat :| Decides(q, args, k) {
      if k > 0 {
        forall j | 0 <= j < k - 1
          ensures StringOf(q, args[1..][j]) == Value("0")
        {
          assert args[1..][j] == args[j + 1];
        }
        assert args[1..][k - 1] == args[k];
        assert Decides(q, args[1..], k - 1);
      }
    }
  }
}
