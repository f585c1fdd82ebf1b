/** serverbrowser/filter/tokens.go: the tokens of the filter language and its operator levels. */
module FilterTokens {
  import opened MatchCommand

  datatype Token =
    | Empty
    | Number(value: int)
    | Identity(name: string)
    | Text(text: string)
    | Operator(operator: string)
    | Group
  {
    predicate IsValue() {
      Number? || Identity? || Text?
    }
  }

  /** Weakest last; the position in the outer list sets the level. */
  const LEVELS: seq<seq<string>> := [
    ["*", "/", "%"],
    ["+", "-", "&", "^", "|"],
    ["==", "=", "!=", ">=", "<=", ">", "<"],
    ["&&", "and"],
    ["||", "or", "like"]]

  /** The order operators are tried in while scanning. */
  const OPERATORS: seq<string> := LEVELS[0] + LEVELS[1] + LEVELS[2] + LEVELS[3] + LEVELS[4]

  function LowerChar(c: char): char {
    if 'A' <= c <= 'Z' then (c as int + 32) as char else c
  }

  function UpperChar(c: char): char {
    if 'a' <= c <= 'z' then (c as int - 32) as char else c
  }

  function Lower(s: string): string {
    if s == "" then "" else [LowerChar(s[0])] + Lower(s[1..])
  }

  function Upper(s: string): (r: string)
    ensures |r| == |s|
  {
    if s == "" then "" else [UpperChar(s[0])] + Upper(s[1..])
  }

  /** 5 for the strongest operators down to 1, -1 for what is not an operator. */
  function Level(operator: string): int {
    var o := Lower(operator);
    if o in LEVELS[0] then 5
    else if o in LEVELS[1] then 4
    else if o in LEVELS[2] then 3
    else if o in LEVELS[3] then 2
    else if o in LEVELS[4] then 1
    else -1
  }

  predicate IsOperator(s: string) {
    exists k :: 0 <= k < |OPERATORS| && (s == OPERATORS[k] || s == Upper(OPERATORS[k]))
  }

  lemma UpperIsOperator(s: string)
    requires s in OPERATORS
    ensures Lower(s) == s && Lower(Upper(s)) == s && s != ""
  {
    assert s in LEVELS[0] + LEVELS[1] + LEVELS[2] || s in LEVELS[3] + LEVELS[4];
    assert |s| <= 4;
    LowerLetters(s);
  }

  lemma {:induction false} LowerLetters(s: string)
    requires forall k :: 0 <= k < |s| ==> !('A' <= s[k] <= 'Z')
    ensures Lower(s) == s && Lower(Upper(s)) == s
  {
    if s != "" {
      assert s[0] == s[0] && forall k :: 0 <= k < |s| - 1 ==> s[1..][k] == s[k + 1];
      LowerLetters(s[1..]);
      assert Upper(s)[1..] == Upper(s[1..]) && Upper(s)[0] == UpperChar(s[0]);
    }
  }

  /** Every operator the scanner accepts has a level, so the parser's operator tokens are valid. */
  lemma OperatorsHaveLevels(s: string)
    requires IsOperator(s)
    ensures 1 <= Level(s) <= 5 && s != ""
  {
    var k :| 0 <= k < |OPERATORS| && (s == OPERATORS[k] || s == Upper(OPERATORS[k]));
    UpperIsOperator(OPERATORS[k]);
    InSomeLevel(OPERATORS[k]);
  }

  lemma InSomeLevel(s: string)
    requires s in OPERATORS
    ensures s in LEVELS[0] || s in LEVELS[1] || s in LEVELS[2] || s in LEVELS[3] || s in LEVELS[4]
  {
  }

  /** The whole table, from the strongest operators to the weakest, in either case. */
  lemma LevelTable(op: string)
    ensures op in ["*", "/", "%"] ==> Level(op) == Level(Upper(op)) == 5
    ensures op in ["+", "-", "&", "^", "|"] ==> Level(op) == Level(Upper(op)) == 4
    ensures op in ["==", "=", "!=", ">=", "<=", ">", "<"] ==> Level(op) == Level(Upper(op)) == 3
    ensures op in ["&&", "and"] ==> Level(op) == Level(Upper(op)) == 2
    ensures op in ["||", "or", "like"] ==> Level(op) == Level(Upper(op)) == 1
  {
    hide Lower, Upper;
    if op in LEVELS[0] || op in LEVELS[1] || op in LEVELS[2] || op in LEVELS[3] || op in LEVELS[4] {
      Listed(op);
      UpperIsOperator(op);
    }
  }

  lemma Listed(op: string)
    requires op in LEVELS[0] || op in LEVELS[1] || op in LEVELS[2] || op in LEVELS[3] || op in LEVELS[4]
    ensures op in OPERATORS
  {
  }

  lemma LevelsOf()
    ensures Level("and") == 2 && Level("AND") == 2
    ensures forall op :: op in LEVELS[2] ==> Level(op) == 3
  {
    assert Lower("and") == "and" by { LowerLetters("and"); }
    assert Lower("AND") == "and";
    forall op | op in LEVELS[2]
      ensures Level(op) == 3
    {
      assert op in OPERATORS;
      UpperIsOperator(op);
      assert op !in LEVELS[0] && op !in LEVELS[1];
    }
  }
}
