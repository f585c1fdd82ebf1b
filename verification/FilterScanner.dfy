/** serverbrowser/filter/scanner.go and scanner_helper.go: a cursor over the filter text. */
module FilterScanner {
  import opened MatchCommand
  import opened FilterTokens

  /** The Unicode tables decide about characters beyond ASCII. */
  datatype Classes = Classes(letter: char -> bool, digit: char -> bool, number: char -> bool) {
    predicate IsLetter(c: char) {
      if c < 128 as char then 'a' <= c <= 'z' || 'A' <= c <= 'Z' else letter(c)
    }

    predicate IsDigit(c: char) {
      if c < 128 as char then '0' <= c <= '9' else digit(c)
    }

    predicate IsNumber(c: char) {
      if c < 128 as char then '0' <= c <= '9' else number(c)
    }

    predicate WordStart(c: char) {
      IsLetter(c) || c == '_'
    }

    predicate IsAlphaNumeric(c: char) {
      IsLetter(c) || IsDigit(c) || c == '_'
    }

    predicate NumberChar(c: char) {
      IsDigit(c) || c == '.'
    }

    /** An operator made of letters is not the start of a longer word. */
    predicate Continues(operator: string, next: Option<char>) {
      operator != "" && IsLetter(operator[0]) && next.Some? && (IsLetter(next.value) || IsNumber(next.value) || next.value == '_')
    }
  }

  /** Which ASCII characters start a word, continue one, and belong to a number. */
  lemma AsciiClasses(u: Classes, c: char)
    requires c < 128 as char
    ensures u.WordStart(c) <==> 'a' <= c <= 'z' || 'A' <= c <= 'Z' || c == '_'
    ensures u.IsAlphaNumeric(c) <==> 'a' <= c <= 'z' || 'A' <= c <= 'Z' || '0' <= c <= '9' || c == '_'
    ensures u.NumberChar(c) <==> '0' <= c <= '9' || c == '.'
  {
  }

  predicate IsSpace(c: char) {
    c == ' ' || c == '\t'
  }

  /** The first position from pos on where the text ends or a character is not of the class. */
  function RunEnd(valid: char -> bool, text: string, pos: nat): (r: nat)
    requires pos <= |text|
    ensures pos <= r <= |text| && (r < |text| ==> !valid(text[r])) && forall k :: pos <= k < r ==> valid(text[k])
    decreases |text| - pos
  {
    if pos < |text| && valid(text[pos]) then RunEnd(valid, text, pos + 1) else pos
  }

  predicate HasAt(text: string, pos: nat, word: string) {
    pos + |word| <= |text| && text[pos..pos + |word|] == word
  }

  function NumberEnd(u: Classes, text: string, pos: nat): (r: Option<nat>)
    requires pos <= |text|
    ensures r.Some? ==> pos < r.value <= |text|
  {
    if pos == |text| then None
    else if u.IsDigit(text[pos]) then Some(RunEnd(u.NumberChar, text, pos + 1))
    else if (text[pos] == '-' || text[pos] == '.') && pos + 1 < |text| && u.IsDigit(text[pos + 1])
    then Some(RunEnd(u.NumberChar, text, pos + 2))
    else None
  }

  function WordEnd(u: Classes, text: string, pos: nat): (r: Option<nat>)
    requires pos <= |text|
    ensures r.Some? ==> pos < r.value <= |text|
  {
    if pos < |text| && u.WordStart(text[pos]) then Some(RunEnd(u.IsAlphaNumeric, text, pos + 1)) else None
  }

  function CharAt(text: string, pos: nat): Option<char> {
    if pos < |text| then Some(text[pos]) else None
  }

  predicate Matches(text: string, pos: nat, operator: string) {
    HasAt(text, pos, operator) || HasAt(text, pos, Upper(operator))
  }

  /** Where the first operator of the list from the k-th on ends that stands at pos. */
  function OperatorEnd(u: Classes, text: string, pos: nat, k: nat): Option<nat>
    requires k <= |OPERATORS|
    decreases |OPERATORS| - k
  {
    if k == |OPERATORS| then None
    else if Matches(text, pos, OPERATORS[k]) && !u.Continues(OPERATORS[k], CharAt(text, pos + |OPERATORS[k]|))
    then Some(pos + |OPERATORS[k]|)
    else OperatorEnd(u, text, pos, k + 1)
  }

  lemma {:induction false} OperatorFound(u: Classes, text: string, pos: nat, k: nat)
    requires k <= |OPERATORS| && OperatorEnd(u, text, pos, k).Some?
    ensures var e := OperatorEnd(u, text, pos, k).value;
            pos < e <= |text| && IsOperator(text[pos..e])
    decreases |OPERATORS| - k
  {
    if Matches(text, pos, OPERATORS[k]) && !u.Continues(OPERATORS[k], CharAt(text, pos + |OPERATORS[k]|)) {
      UpperIsOperator(OPERATORS[k]);
    } else {
      OperatorFound(u, text, pos, k + 1);
    }
  }

  /** "=" is in the list, so nothing that starts with it is left for the branch after the operators. */
  lemma {:induction false} EqualsIsOperator(u: Classes, text: string, pos: nat, k: nat)
    requires k <= 9 && pos < |text| && text[pos] == '='
    ensures OperatorEnd(u, text, pos, k).Some?
    decreases 9 - k
  {
    assert OPERATORS[9] == "=";
    if k == 9 {
      assert text[pos..pos + 1] == "=";
      assert Matches(text, pos, OPERATORS[9]);
    } else {
      EqualsIsOperator(u, text, pos, k + 1);
    }
  }

  datatype ScannerState = ScannerState(start: nat, pos: nat, width: nat)

  class Scanner {
    const input: string
    const u: Classes
    var start: nat
    var pos: nat
    var width: nat
    var prevState: ScannerState

    predicate Valid()
      reads this
    {
      prevState.start == prevState.pos <= start <= pos <= |input|
    }

    constructor (u: Classes, input: string)
      ensures Valid() && this.input == input && this.u == u && start == pos == 0
    {
      this.u, this.input := u, input;
      start, pos, width, prevState := 0, 0, 0, ScannerState(0, 0, 0);
    }

    predicate IsEOF()
      reads this
    {
      pos >= |input|
    }

    /** None is the end of the text. */
    method Next() returns (c: Option<char>)
      requires Valid()
      modifies this`pos, this`width
      ensures Valid() && c == CharAt(input, old(pos)) && width == (if c.Some? then 1 else 0) && pos == old(pos) + width
    {
      if IsEOF() {
        width := 0;
        return None;
      }
      c := Some(input[pos]);
      width := 1;
      pos := pos + width;
    }

    /** Steps back over what the last call of Next consumed. */
    method Backup()
      requires Valid() && start + width <= pos
      modifies this`pos
      ensures Valid() && pos == old(pos) - width
    {
      pos := pos - width;
    }

    method Peek() returns (c: Option<char>)
      requires Valid()
      modifies this`pos, this`width
      ensures Valid() && c == CharAt(input, pos) && pos == old(pos)
    {
      c := Next();
      Backup();
    }

    method Ignore()
      requires Valid()
      modifies this`start
      ensures Valid() && start == pos
    {
      start := pos;
    }

    function SaveState(): ScannerState
      reads this
    {
      ScannerState(start, pos, width)
    }

    method LoadState(state: ScannerState)
      requires Valid() && prevState.pos <= state.start <= state.pos <= |input|
      modifies this`start, this`pos, this`width
      ensures Valid() && SaveState() == state
    {
      start, pos, width := state.start, state.pos, state.width;
    }

    /** The text since the start position, which moves up to here. */
    method Commit() returns (text: string)
      requires Valid()
      modifies this`start, this`prevState
      ensures Valid() && text == input[old(start)..pos] && start == pos
    {
      text := input[start..pos];
      start := pos;
      prevState := SaveState();
    }

    method Rollback()
      requires Valid()
      modifies this`start, this`pos, this`width
      ensures Valid() && start == pos == prevState.pos
    {
      LoadState(prevState);
    }

    method Prefix(pre: string) returns (found: bool)
      requires Valid()
      modifies this`pos
      ensures Valid() && found == HasAt(input, old(pos), pre) && pos == old(pos) + if found then |pre| else 0
    {
      found := HasAt(input, pos, pre);
      if found {
        pos := pos + |pre|;
      }
    }

    method Scan(valid: char -> bool) returns (some: bool)
      requires Valid()
      modifies this`pos, this`width
      ensures Valid() && pos == RunEnd(valid, input, old(pos)) && some == (pos > old(pos))
    {
      some := false;
      var c := Next();
      while c.Some? && valid(c.value)
        invariant Valid() && width == (if c.Some? then 1 else 0) && old(pos) + width <= pos
        invariant c == CharAt(input, pos - width) && some == (pos - width > old(pos))
        invariant RunEnd(valid, input, pos - width) == RunEnd(valid, input, old(pos))
        decreases |input| - pos, width
      {
        some := true;
        c := Next();
      }
      Backup();
    }

    method SkipSpaces()
      requires Valid()
      modifies this`start, this`pos, this`width
      ensures Valid() && pos == RunEnd(IsSpace, input, old(pos)) && start == pos
    {
      var _ := Scan(IsSpace);
      Ignore();
    }

    method ScanWord() returns (found: bool)
      requires Valid() && start == pos
      modifies this`pos, this`width
      ensures Valid() && start == old(start)
      ensures WordEnd(u, input, old(pos)) == if found then Some(pos) else None
      ensures !found ==> pos == old(pos)
    {
      var c := Next();
      if c.Some? && u.WordStart(c.value) {
        var _ := Scan(u.IsAlphaNumeric);
        return true;
      }
      Backup();
      return false;
    }

    method ScanNumber() returns (found: bool)
      requires Valid() && start == pos
      modifies this`start, this`pos, this`width
      ensures Valid() && start == old(start)
      ensures NumberEnd(u, input, old(pos)) == if found then Some(pos) else None
      ensures !found ==> pos == old(pos)
    {
      var state := SaveState();
      var c := Next();
      var isDigit := c.Some? && u.IsDigit(c.value);
      if !isDigit && (c == Some('-') || c == Some('.')) {
        var d := Next();
        if !(d.Some? && u.IsDigit(d.value)) {
          LoadState(state);
          return false;
        }
      } else if !isDigit {
        Backup();
        return false;
      }
      var _ := Scan(u.NumberChar);
      return true;
    }

    method TryOperator(op: string) returns (found: bool)
      requires Valid() && start == pos
      modifies this`start, this`pos, this`width
      ensures Valid() && start == old(start)
      ensures found == (Matches(input, old(pos), op) && !u.Continues(op, CharAt(input, old(pos) + |op|)))
      ensures pos == old(pos) + if found then |op| else 0
    {
      var state := SaveState();
      found := Prefix(op);
      if !found {
        found := Prefix(Upper(op));
      }
      if found {
        var next := Peek();
        if u.Continues(op, next) {
          LoadState(state);
          return false;
        }
      }
    }

    /** Tries the operators in their order; letters that go on into a longer word do not count. */
    method AcceptOperator() returns (found: bool)
      requires Valid() && start == pos
      modifies this`start, this`pos, this`width
      ensures Valid() && start == old(start)
      ensures OperatorEnd(u, input, old(pos), 0) == if found then Some(pos) else None
      ensures !found ==> pos == old(pos)
    {
      hide Matches, Upper;
      for k := 0 to |OPERATORS|
        invariant Valid() && start == old(start) && pos == old(pos)
        invariant OperatorEnd(u, input, pos, k) == OperatorEnd(u, input, pos, 0)
      {
        found := TryOperator(OPERATORS[k]);
        if found {
          return true;
        }
      }
      return false;
    }

    /** The text between the quote at the current position and the next one like it. */
    method ParseText() returns (text: Option<string>)
      requires Valid() && pos < |input| && (input[pos] == '"' || input[pos] == '\'')
      modifies this`start, this`pos, this`width, this`prevState
      ensures Valid()
      ensures var quote := input[old(pos)];
              var e := RunEnd(c => c != quote, input, old(pos) + 1);
              if e == |input| then text.None?
              else text == Some(input[old(pos) + 1..e]) && pos == e + 1 && start == pos
    {
      var quote := Next();
      Ignore();
      ghost var from := pos;
      while true
        invariant Valid() && start == from <= pos
        invariant RunEnd(c => c != quote.value, input, pos) == RunEnd(c => c != quote.value, input, from)
        decreases |input| - pos
      {
        var c := Next();
        if c == quote {
          Backup();
          var t := Commit();
          var _ := Next();
          Ignore();
          return Some(t);
        }
        if IsEOF() {
          return None;
        }
      }
    }
  }
}
