/** Printed filters, in the spelling the client library uses, scan back to what was printed. */
module FilterPrint {
  import opened MatchCommand
  import opened Decimal
  import opened FilterTokens
  import opened FilterTree
  import opened FilterScanner
  import opened FilterEval
  import opened FilterMeaning
  import opened FilterParser

  /** Names start with a letter and texts have no single quote; numbers are 64-bit. */
  predicate PrintableToken(u: Classes, t: Token) {
    match t
    case Number(v) => InInt64(v)
    case Identity(name) => name != "" && u.WordStart(name[0]) && !u.IsDigit(name[0]) && forall k :: 0 <= k < |name| ==> u.IsAlphaNumeric(name[k])
    case Text(s) => '\'' !in s
    case _ => false
  }

  predicate PrintableItem(u: Classes, i: Item) {
    match i
    case Test(l, _, r) => PrintableToken(u, l) && PrintableToken(u, r)
    case Nested(c) => Printable(u, c)
  }

  predicate Printable(u: Classes, c: Conj) {
    match c
    case One(i) => PrintableItem(u, i)
    case More(b, _, i) => Printable(u, b) && PrintableItem(u, i)
  }

  function PrintToken(t: Token): string {
    match t
    case Number(v) => FormatInt(v)
    case Identity(name) => name
    case Text(s) => "'" + s + "'"
    case _ => ""
  }

  function PrintItem(i: Item): string {
    match i
    case Test(l, op, r) => PrintToken(l) + " " + op + " " + PrintToken(r)
    case Nested(c) => "(" + Print(c) + ")"
  }

  function Print(c: Conj): string {
    match c
    case One(i) => PrintItem(i)
    case More(b, w, i) => Print(b) + " " + w + " " + PrintItem(i)
  }

  /** What may follow a value: the end, a space or a closing bracket. */
  predicate EndsAt(text: string, pos: nat) {
    pos == |text| || (pos < |text| && (text[pos] == ' ' || text[pos] == ')'))
  }

  lemma HasParts(text: string, pos: nat, a: string, b: string)
    requires HasAt(text, pos, a + b)
    ensures HasAt(text, pos, a) && HasAt(text, pos + |a|, b)
  {
    var whole := text[pos..pos + |a + b|];
    assert whole[..|a|] == text[pos..pos + |a|] && (a + b)[..|a|] == a;
    assert whole[|a|..] == text[pos + |a|..pos + |a| + |b|] && (a + b)[|a|..] == b;
  }

  lemma CharsOf(text: string, pos: nat, a: string)
    requires HasAt(text, pos, a)
    ensures forall k :: 0 <= k < |a| ==> text[pos + k] == a[k]
  {
    forall k | 0 <= k < |a|
      ensures text[pos + k] == a[k]
    {
      assert text[pos..pos + |a|][k] == text[pos + k];
    }
  }

  lemma {:induction false} RunEndIs(valid: char -> bool, text: string, pos: nat, e: nat)
    requires pos <= e <= |text| && (forall k :: pos <= k < e ==> valid(text[k])) && (e < |text| ==> !valid(text[e]))
    ensures RunEnd(valid, text, pos) == e
    decreases e - pos
  {
    if pos < e {
      RunEndIs(valid, text, pos + 1, e);
    }
  }

  lemma SpaceSkipped(u: Classes, text: string, pos: nat, valuePart: bool)
    requires pos < |text| && text[pos] == ' '
    ensures LexFrom(u, text, pos, valuePart) == LexFrom(u, text, pos + 1, valuePart)
  {
    assert RunEnd(IsSpace, text, pos) == RunEnd(IsSpace, text, pos + 1);
    assert ScanPart(u, text, pos, valuePart) == ScanPart(u, text, pos + 1, valuePart);
  }

  // ---------- Values

  lemma NumberScans(u: Classes, text: string, pos: nat, v: int)
    requires InInt64(v) && HasAt(text, pos, FormatInt(v)) && EndsAt(text, pos + |FormatInt(v)|)
    ensures ScanValue(u, text, pos) == Found(Leaf(Number(v)), pos + |FormatInt(v)|)
  {
    hide ParseInt64, NatValue, WordEnd;
    var s := FormatInt(v);
    var e := pos + |s|;
    ParseOfFormat(v);
    DigitsAt(u, text, pos, v);
    assert RunEnd(IsSpace, text, pos) == pos;
    if u.IsDigit(text[pos]) {
      RunEndIs(u.NumberChar, text, pos + 1, e);
    } else {
      RunEndIs(u.NumberChar, text, pos + 2, e);
    }
  }

  lemma DigitsAt(u: Classes, text: string, pos: nat, v: int)
    requires HasAt(text, pos, FormatInt(v))
    ensures var s := FormatInt(v);
            && s != "" && text[pos..pos + |s|] == s && !IsSpace(text[pos])
            && (u.IsDigit(text[pos]) || (text[pos] == '-' && |s| > 1 && u.IsDigit(text[pos + 1])))
            && forall k :: pos < k < pos + |s| ==> u.NumberChar(text[k])
  {
    hide NatValue;
    var s := FormatInt(v);
    CharsOf(text, pos, s);
    assert text[pos + 0] == s[0];
    if v < 0 {
      assert text[pos + 1] == s[1];
    }
    forall k | pos < k < pos + |s|
      ensures u.NumberChar(text[k])
    {
      assert text[pos + (k - pos)] == s[k - pos];
    }
  }

  lemma WordScans(u: Classes, text: string, pos: nat, name: string)
    requires PrintableToken(u, Identity(name)) && HasAt(text, pos, name) && EndsAt(text, pos + |name|)
    ensures ScanValue(u, text, pos) == Found(Leaf(Identity(name)), pos + |name|)
  {
    hide ParseInt64;
    CharsOf(text, pos, name);
    var e := pos + |name|;
    assert text[pos] == name[0] && !IsSpace(name[0]);
    assert RunEnd(IsSpace, text, pos) == pos;
    forall k | pos < k < e
      ensures u.IsAlphaNumeric(text[k])
    {
      assert text[k] == name[k - pos];
    }
    RunEndIs(u.IsAlphaNumeric, text, pos + 1, e);
    assert text[pos..e] == name;
  }

  lemma TextScans(u: Classes, text: string, pos: nat, s: string)
    requires '\'' !in s && HasAt(text, pos, "'" + s + "'")
    ensures ScanValue(u, text, pos) == Found(Leaf(Text(s)), pos + |s| + 2)
  {
    hide ParseInt64;
    var q := "'" + s + "'";
    CharsOf(text, pos, q);
    assert text[pos] == q[0] && text[pos + |s| + 1] == q[|s| + 1];
    forall k | pos + 1 <= k < pos + |s| + 1
      ensures text[k] != '\'' && text[k] == s[k - pos - 1]
    {
      assert text[k] == q[k - pos];
    }
    assert RunEnd(IsSpace, text, pos) == pos;
    RunEndIs(c => c != text[pos], text, pos + 1, pos + |s| + 1);
    assert text[pos + 1..pos + |s| + 1] == s;
  }

  lemma ValueScans(u: Classes, text: string, pos: nat, t: Token)
    requires PrintableToken(u, t) && HasAt(text, pos, PrintToken(t)) && EndsAt(text, pos + |PrintToken(t)|)
    ensures ScanValue(u, text, pos) == Found(Leaf(t), pos + |PrintToken(t)|)
  {
    match t
    case Number(v) => NumberScans(u, text, pos, v);
    case Identity(name) => WordScans(u, text, pos, name);
    case Text(s) => TextScans(u, text, pos, s);
  }

  // ---------- Operators

  /** An operator whose first or second character is another one does not stand here. */
  lemma NotHere(text: string, pos: nat, w: string, k: nat)
    requires k < |w| && pos + k < |text| && text[pos + k] != w[k] && text[pos + k] != UpperChar(w[k])
    ensures !Matches(text, pos, w)
  {
    UpperAt(w, k);
    if pos + |w| <= |text| {
      assert text[pos..pos + |w|][k] == text[pos + k];
    }
  }

  lemma {:induction false} UpperAt(s: string, k: nat)
    requires k < |s|
    ensures Upper(s)[k] == UpperChar(s[k])
  {
    if k > 0 {
      UpperAt(s[1..], k - 1);
    }
  }

  lemma {:induction false} SkipOperators(u: Classes, text: string, pos: nat, k: nat, m: nat)
    requires k <= m <= |OPERATORS| && forall j :: k <= j < m ==> !Matches(text, pos, OPERATORS[j])
    ensures OperatorEnd(u, text, pos, k) == OperatorEnd(u, text, pos, m)
    decreases m - k
  {
    hide Matches;
    if k < m {
      SkipOperators(u, text, pos, k + 1, m);
    }
  }

  /** None of the operators made of other characters stands at a comparison, a letter or a bracket. */
  lemma NoSymbol(text: string, pos: nat, j: nat)
    requires pos < |text| && text[pos] in "=!><aA)" && j < 8
    ensures !Matches(text, pos, OPERATORS[j])
  {
    assert OPERATORS[j] in LEVELS[0] || OPERATORS[j] in LEVELS[1];
    NotHere(text, pos, OPERATORS[j], 0);
  }

  lemma ComparisonScans(u: Classes, text: string, pos: nat, op: string)
    requires op in LEVELS[2] && HasAt(text, pos, op + " ")
    ensures OperatorEnd(u, text, pos, 0) == Some(pos + |op|)
  {
    hide OperatorEnd, Matches;
    CharsOf(text, pos, op + " ");
    HasParts(text, pos, op, " ");
    assert text[pos] == (op + " ")[0] && text[pos + 1] == (op + " ")[1];
    forall j | 0 <= j < 8
      ensures !Matches(text, pos, OPERATORS[j])
    {
      NoSymbol(text, pos, j);
    }
    var m :| 8 <= m < 15 && OPERATORS[m] == op by { ComparisonIndex(op); }
    forall j | 8 <= j < m
      ensures !Matches(text, pos, OPERATORS[j])
    {
      OtherComparison(text, pos, op, m, j);
    }
    SkipOperators(u, text, pos, 0, m);
    FoundHere(u, text, pos, m);
  }

  lemma ComparisonIndex(op: string)
    requires op in LEVELS[2]
    ensures exists m :: 8 <= m < 15 && OPERATORS[m] == op
  {
    var i :| 0 <= i < |LEVELS[2]| && LEVELS[2][i] == op;
    assert OPERATORS[8 + i] == op;
  }

  lemma OtherComparison(text: string, pos: nat, op: string, m: nat, j: nat)
    requires 8 <= j < m < 15 && OPERATORS[m] == op && pos + 1 < |text| && text[pos] == op[0]
    requires text[pos + 1] == if |op| == 1 then ' ' else op[1]
    ensures !Matches(text, pos, OPERATORS[j])
  {
    if OPERATORS[j][0] != op[0] {
      NotHere(text, pos, OPERATORS[j], 0);
    } else {
      NotHere(text, pos, OPERATORS[j], 1);
    }
  }

  lemma FoundHere(u: Classes, text: string, pos: nat, m: nat)
    requires m < |OPERATORS| && Matches(text, pos, OPERATORS[m])
    requires !u.Continues(OPERATORS[m], CharAt(text, pos + |OPERATORS[m]|))
    ensures OperatorEnd(u, text, pos, m) == Some(pos + |OPERATORS[m]|)
  {
  }

  lemma AndScans(u: Classes, text: string, pos: nat, w: string)
    requires AndWord(w) && HasAt(text, pos, w + " ")
    ensures OperatorEnd(u, text, pos, 0) == Some(pos + |w|)
  {
    hide OperatorEnd, Upper;
    CharsOf(text, pos, w + " ");
    HasParts(text, pos, w, " ");
    assert text[pos] == (w + " ")[0] && text[pos + 3] == (w + " ")[3];
    forall j | 0 <= j < 8
      ensures !Matches(text, pos, OPERATORS[j])
    {
      NoSymbol(text, pos, j);
    }
    forall j | 8 <= j < 16
      ensures !Matches(text, pos, OPERATORS[j])
    {
      NoComparisonAtLetter(text, pos, j);
    }
    SkipOperators(u, text, pos, 0, 16);
    AndAt16();
    FoundHere(u, text, pos, 16);
  }

  lemma AndAt16()
    ensures OPERATORS[16] == "and" && Upper("and") == "AND"
  {
  }

  lemma NoComparisonAtLetter(text: string, pos: nat, j: nat)
    requires pos < |text| && text[pos] in "aA)" && 8 <= j < 16
    ensures !Matches(text, pos, OPERATORS[j])
  {
    NotHere(text, pos, OPERATORS[j], 0);
  }

  lemma BracketIsNoOperator(u: Classes, text: string, pos: nat)
    requires pos < |text| && text[pos] == ')'
    ensures OperatorEnd(u, text, pos, 0).None?
  {
    forall j | 0 <= j < |OPERATORS|
      ensures !Matches(text, pos, OPERATORS[j])
    {
      if j < 8 {
        NoSymbol(text, pos, j);
      } else if j < 16 {
        NoComparisonAtLetter(text, pos, j);
      } else {
        NotHere(text, pos, OPERATORS[j], 0);
      }
    }
    SkipOperators(u, text, pos, 0, |OPERATORS|);
  }

  // ---------- Lists

  function Then(xs: seq<Lexeme>, rest: Option<seq<Lexeme>>): Option<seq<Lexeme>> {
    if rest.None? then None else Some(xs + rest.value)
  }

  lemma ThenJoins(xs: seq<Lexeme>, ys: seq<Lexeme>, rest: Option<seq<Lexeme>>)
    ensures Then(xs, Then(ys, rest)) == Then(xs + ys, rest)
  {
    if rest.Some? {
      assert xs + (ys + rest.value) == (xs + ys) + rest.value;
    }
  }

  lemma LexValue(u: Classes, text: string, pos: nat, t: Token)
    requires PrintableToken(u, t) && HasAt(text, pos, PrintToken(t)) && EndsAt(text, pos + |PrintToken(t)|)
    ensures LexFrom(u, text, pos, true) == Then([Leaf(t)], LexFrom(u, text, pos + |PrintToken(t)|, false))
  {
    hide ScanValue, ScanOperator;
    ValueScans(u, text, pos, t);
  }

  lemma OperatorScans(u: Classes, text: string, pos: nat, op: string)
    requires (op in LEVELS[2] || AndWord(op)) && HasAt(text, pos, op + " ")
    ensures ScanOperator(u, text, pos) == Found(Op(op), pos + |op|)
  {
    hide OperatorEnd, IsOperator;
    if op in LEVELS[2] {
      ComparisonScans(u, text, pos, op);
    } else {
      AndScans(u, text, pos, op);
    }
    OperatorStart(op);
    CharsOf(text, pos, op + " ");
    assert text[pos] == (op + " ")[0];
    assert RunEnd(IsSpace, text, pos) == pos;
    HasParts(text, pos, op, " ");
  }

  lemma LexStep(u: Classes, text: string, pos: nat, x: Lexeme, next: nat)
    requires pos <= |text| && ScanOperator(u, text, pos) == Found(x, next)
    ensures LexFrom(u, text, pos, false) == Then([x], LexFrom(u, text, next, ValueNext(x)))
  {
    hide ScanValue, ScanOperator;
  }

  lemma SpacedLexes(u: Classes, text: string, pos: nat, op: string)
    requires pos + |op| + 2 <= |text| && text[pos] == ' ' && text[pos + |op| + 1] == ' '
    requires ScanOperator(u, text, pos + 1) == Found(Op(op), pos + 1 + |op|)
    ensures LexFrom(u, text, pos, false) == Then([Op(op)], LexFrom(u, text, pos + |op| + 2, true))
  {
    hide LexFrom, ScanOperator, ScanValue, OperatorEnd, RunEnd, IsOperator, Then, AllScannable;
    SpaceSkipped(u, text, pos, false);
    LexStep(u, text, pos + 1, Op(op), pos + 1 + |op|);
    SpaceSkipped(u, text, pos + |op| + 1, true);
  }

  lemma SpacesAround(text: string, pos: nat, op: string)
    requires HasAt(text, pos, " " + op + " ")
    ensures pos + |op| + 2 <= |text| && text[pos] == ' ' && text[pos + |op| + 1] == ' ' && HasAt(text, pos + 1, op + " ")
  {
    var whole := " " + op + " ";
    CharsOf(text, pos, whole);
    assert text[pos + 0] == whole[0] && text[pos + (|op| + 1)] == whole[|op| + 1];
    assert whole == " " + (op + " ");
    HasParts(text, pos, " ", op + " ");
  }

  /** An operator between spaces. */
  lemma LexOperator(u: Classes, text: string, pos: nat, op: string)
    requires (op in LEVELS[2] || AndWord(op)) && HasAt(text, pos, " " + op + " ")
    ensures LexFrom(u, text, pos, false) == Then([Op(op)], LexFrom(u, text, pos + |op| + 2, true))
  {
    hide LexFrom, ScanOperator, HasAt;
    SpacesAround(text, pos, op);
    OperatorScans(u, text, pos + 1, op);
    SpacedLexes(u, text, pos, op);
  }

  lemma OperatorStart(op: string)
    requires op in LEVELS[2] || AndWord(op)
    ensures op != "" && !IsSpace(op[0])
  {
  }

  lemma TestParts(text: string, pos: nat, l: string, op: string, r: string)
    requires HasAt(text, pos, l + " " + op + " " + r)
    ensures HasAt(text, pos, l) && HasAt(text, pos + |l|, " " + op + " ") && HasAt(text, pos + |l| + |op| + 2, r)
    ensures EndsAt(text, pos + |l|)
  {
    assert l + " " + op + " " + r == l + ((" " + op + " ") + r);
    HasParts(text, pos, l, (" " + op + " ") + r);
    HasParts(text, pos + |l|, " " + op + " ", r);
    SpacesAround(text, pos + |l|, op);
  }

  lemma LexTest(u: Classes, text: string, pos: nat, i: Item)
    requires i.Test? && ItemOK(i) && PrintableItem(u, i) && HasAt(text, pos, PrintItem(i)) && EndsAt(text, pos + |PrintItem(i)|)
    ensures LexFrom(u, text, pos, true) == Then(ItemLexemes(i), LexFrom(u, text, pos + |PrintItem(i)|, false))
  {
    hide LexFrom, PrintToken, PrintableToken, HasAt, EndsAt;
    var l, op, r := PrintToken(i.left), i.operator, PrintToken(i.right);
    TestParts(text, pos, l, op, r);
    var p, e := pos + |l| + |op| + 2, pos + |PrintItem(i)|;
    LexValue(u, text, pos, i.left);
    LexOperator(u, text, pos + |l|, op);
    LexValue(u, text, p, i.right);
    var rest := LexFrom(u, text, e, false);
    ThenJoins([Op(op)], [Leaf(i.right)], rest);
    ThenJoins([Leaf(i.left)], [Op(op)] + [Leaf(i.right)], rest);
    assert [Leaf(i.left)] + ([Op(op)] + [Leaf(i.right)]) == ItemLexemes(i);
  }

  lemma LexOpen(u: Classes, text: string, pos: nat)
    requires pos < |text| && text[pos] == '('
    ensures LexFrom(u, text, pos, true) == Then([Open], LexFrom(u, text, pos + 1, true))
  {
    hide ScanOperator;
    assert RunEnd(IsSpace, text, pos) == pos;
    assert ScanValue(u, text, pos) == Found(Open, pos + 1);
  }

  lemma LexClose(u: Classes, text: string, pos: nat)
    requires pos < |text| && text[pos] == ')'
    ensures LexFrom(u, text, pos, false) == Then([Close], LexFrom(u, text, pos + 1, false))
  {
    hide ScanValue, OperatorEnd;
    BracketIsNoOperator(u, text, pos);
    assert RunEnd(IsSpace, text, pos) == pos;
    assert ScanOperator(u, text, pos) == Found(Close, pos + 1);
  }

  lemma {:induction false} LexItem(u: Classes, text: string, pos: nat, i: Item)
    requires ItemOK(i) && PrintableItem(u, i) && HasAt(text, pos, PrintItem(i)) && EndsAt(text, pos + |PrintItem(i)|)
    ensures LexFrom(u, text, pos, true) == Then(ItemLexemes(i), LexFrom(u, text, pos + |PrintItem(i)|, false))
    decreases i
  {
    hide LexFrom, HasAt, EndsAt, Then;
    match i
    case Test(_, _, _) => LexTest(u, text, pos, i);
    case Nested(c) =>
      NestedParts(text, pos, c);
      LexOpen(u, text, pos);
      LexConj(u, text, pos + 1, c);
      LexClose(u, text, pos + 1 + |Print(c)|);
      NestedLexes(c, LexFrom(u, text, pos + |PrintItem(i)|, false));
  }

  lemma NestedParts(text: string, pos: nat, c: Conj)
    requires HasAt(text, pos, PrintItem(Nested(c)))
    ensures var e := pos + 1 + |Print(c)|;
            && e + 1 == pos + |PrintItem(Nested(c))| <= |text| && text[pos] == '(' && text[e] == ')'
            && HasAt(text, pos + 1, Print(c)) && EndsAt(text, e)
  {
    hide Print;
    var e := pos + 1 + |Print(c)|;
    assert PrintItem(Nested(c)) == "(" + (Print(c) + ")");
    HasParts(text, pos, "(", Print(c) + ")");
    HasParts(text, pos + 1, Print(c), ")");
    CharsOf(text, pos, "(");
    CharsOf(text, e, ")");
    assert text[pos + 0] == '(' && text[e + 0] == ')';
  }

  lemma NestedLexes(c: Conj, rest: Option<seq<Lexeme>>)
    ensures Then([Open], Then(ConjLexemes(c), Then([Close], rest))) == Then(ItemLexemes(Nested(c)), rest)
  {
    hide ConjLexemes;
    ThenJoins(ConjLexemes(c), [Close], rest);
    ThenJoins([Open], ConjLexemes(c) + [Close], rest);
    assert [Open] + (ConjLexemes(c) + [Close]) == ItemLexemes(Nested(c));
  }

  lemma {:induction false} LexConj(u: Classes, text: string, pos: nat, c: Conj)
    requires ConjOK(c) && Printable(u, c) && HasAt(text, pos, Print(c)) && EndsAt(text, pos + |Print(c)|)
    ensures LexFrom(u, text, pos, true) == Then(ConjLexemes(c), LexFrom(u, text, pos + |Print(c)|, false))
    decreases c
  {
    hide LexFrom, PrintItem, HasAt, EndsAt;
    match c
    case One(i) => LexItem(u, text, pos, i);
    case More(b, w, i) =>
      var p, q := pos + |Print(b)|, pos + |Print(b)| + |w| + 2;
      TestParts(text, pos, Print(b), w, PrintItem(i));
      LexConj(u, text, pos, b);
      LexOperator(u, text, p, w);
      LexItem(u, text, q, i);
      var rest := LexFrom(u, text, pos + |Print(c)|, false);
      ThenJoins([Op(w)], ItemLexemes(i), rest);
      ThenJoins(ConjLexemes(b), [Op(w)] + ItemLexemes(i), rest);
      assert ConjLexemes(b) + ([Op(w)] + ItemLexemes(i)) == ConjLexemes(c);
  }

  /** Scanning undoes printing. */
  lemma PrintedLexes(u: Classes, c: Conj)
    requires ConjOK(c) && Printable(u, c)
    ensures LexFrom(u, Print(c), 0, true) == Some(ConjLexemes(c))
  {
    hide ScanOperator, ScanValue;
    var text := Print(c);
    assert text[0..|text|] == text;
    LexConj(u, text, 0, c);
    assert RunEnd(IsSpace, text, |text|) == |text|;
    EndLexes(u, text);
    assert ConjLexemes(c) + [] == ConjLexemes(c);
  }

  lemma EndLexes(u: Classes, text: string)
    ensures LexFrom(u, text, |text|, false) == Some([])
  {
  }

  /** A printed filter parses, and selects exactly the servers of which every test holds. */
  lemma PrintedFilterSelects(u: Classes, q: Query, c: Conj)
    requires ConjOK(c) && Printable(u, c) && Decided(q, Tests(c))
    ensures ParseFrom(u, Print(c), 0, true, START).Accepted?
    ensures Evaluate(q, Plug(ParseFrom(u, Print(c), 0, true, START).frames)) == Value(Truth(AllHold(q, Tests(c))))
  {
    hide ParseFrom, Evaluate, AllHold, Decided, LexFrom;
    PrintedLexes(u, c);
    TextSelects(u, q, Print(c), c);
  }
}
