/**
 nhttp/chunked.go: the chunked transfer coding of section 4.1 of RFC 7230, without trailers.
 */
module Chunked {
  type Byte = x: int | 0 <= x < 256

  const CR: Byte := 13
  const LF: Byte := 10
  const SEMICOLON: Byte := 59
  const MAX_LINE_LENGTH: nat := 4096

  datatype Error = NoError | EOF | UnexpectedEOF | Malformed | LineTooLong | InvalidByte | LengthTooLarge

  // ---------- Chunk sizes

  datatype Size = Size(n: nat, err: Error)

  predicate IsHexDigit(b: Byte) {
    48 <= b <= 57 || 97 <= b <= 102 || 65 <= b <= 70
  }

  function HexValue(b: Byte): (v: nat)
    requires IsHexDigit(b)
    ensures v < 16
  {
    if b <= 57 then b - 48 else if b >= 97 then b - 87 else b - 55
  }

  function HexDigit(d: nat): Byte
    requires d < 16
  {
    if d < 10 then 48 + d else 87 + d
  }

  /** parseHexUint: at most sixteen digits; no digits at all count as zero. */
  function HexSize(v: seq<Byte>): Size {
    if v == [] then Size(0, NoError)
    else
      var before := HexSize(v[..|v| - 1]);
      var b := v[|v| - 1];
      if before.err != NoError then before
      else if !IsHexDigit(b) then Size(0, InvalidByte)
      else if |v| == 17 then Size(0, LengthTooLarge)
      else Size(before.n * 16 + HexValue(b), NoError)
  }

  /** What %x prints. */
  function Hex(n: nat): (s: seq<Byte>)
    ensures s != [] && forall k :: 0 <= k < |s| ==> IsHexDigit(s[k])
  {
    if n < 16 then [HexDigit(n)] else Hex(n / 16) + [HexDigit(n % 16)]
  }

  function Power16(k: nat): (r: nat)
    ensures r > 0
  {
    if k == 0 then 1 else 16 * Power16(k - 1)
  }

  lemma {:induction false} HexRoundTrip(n: nat, k: nat)
    requires n < Power16(k) && 1 <= k <= 16
    ensures |Hex(n)| <= k && HexSize(Hex(n)) == Size(n, NoError)
  {
    var s := Hex(n);
    if n < 16 {
      assert s[..0] == [];
    } else {
      HexRoundTrip(n / 16, k - 1);
      assert s[..|s| - 1] == Hex(n / 16);
    }
  }

  // ---------- Lines

  predicate IsSpace(b: Byte) {
    b == 32 || b == 9 || b == LF || b == CR
  }

  function Trimmed(line: seq<Byte>): seq<Byte> {
    if line != [] && IsSpace(line[|line| - 1]) then Trimmed(line[..|line| - 1]) else line
  }

  function IndexOf(s: seq<Byte>, b: Byte): (k: nat)
    ensures k <= |s| && (k < |s| ==> s[k] == b) && b !in s[..k]
  {
    if s == [] || s[0] == b then 0
    else
      var k := IndexOf(s[1..], b);
      assert s[..1 + k] == [s[0]] + s[1..][..k];
      1 + k
  }

  function WithoutExtension(line: seq<Byte>): seq<Byte> {
    line[..IndexOf(line, SEMICOLON)]
  }

  /**
   The size line at the front of the wire, and what is left of the wire behind it.  The
   buffer holds as many bytes as the longest line.
   */
  function SizeLine(wire: seq<Byte>): (r: (Size, seq<Byte>))
    ensures |r.1| <= |wire| && (r.0.err == NoError ==> |r.1| < |wire|)
  {
    var k := IndexOf(wire, LF);
    if k >= MAX_LINE_LENGTH then (Size(0, LineTooLong), wire[MAX_LINE_LENGTH..])
    else if k == |wire| then (Size(0, UnexpectedEOF), [])
    else if k + 1 >= MAX_LINE_LENGTH then (Size(0, LineTooLong), wire[k + 1..])
    else (HexSize(WithoutExtension(Trimmed(wire[..k + 1]))), wire[k + 1..])
  }

  // ---------- The coding as a whole

  /** Everything a reader can still get: the bytes, how the stream ends, and the wire behind that end. */
  datatype Decoded = Decoded(data: seq<Byte>, end: Error, left: seq<Byte>)

  /** n bytes of the current chunk are unread; checkEnd asks for the line end of a finished chunk. */
  function Decode(wire: seq<Byte>, n: nat, checkEnd: bool): (r: Decoded)
    ensures r.end != NoError
    decreases |wire|, checkEnd, n == 0
  {
    if checkEnd then
      if |wire| < 2 then Decoded([], UnexpectedEOF, [])
      else if wire[..2] != [CR, LF] then Decoded([], Malformed, wire[2..])
      else Decode(wire[2..], n, false)
    else if n == 0 then
      var line := SizeLine(wire);
      if line.0.err != NoError then Decoded([], line.0.err, line.1)
      else if line.0.n == 0 then Decoded([], EOF, line.1)
      else Decode(line.1, line.0.n, false)
    else if wire == [] then Decoded([], UnexpectedEOF, [])
    else
      var rest := Decode(wire[1..], n - 1, n == 1);
      rest.(data := [wire[0]] + rest.data)
  }

  /** Reading m bytes of a chunk in one go. */
  lemma {:induction false} DecodeMany(wire: seq<Byte>, n: nat, m: nat)
    requires 0 < m <= n && m <= |wire|
    ensures var rest := Decode(wire[m..], n - m, n == m);
            Decode(wire, n, false) == rest.(data := wire[..m] + rest.data)
    decreases m
  {
    hide SizeLine;
    var rest := Decode(wire[m..], n - m, n == m);
    if m == 1 {
      assert wire[..1] == [wire[0]];
    } else {
      DecodeMany(wire[1..], n - 1, m - 1);
      assert wire[1..][m - 1..] == wire[m..];
      assert [wire[0]] + wire[1..][..m - 1] == wire[..m];
      assert [wire[0]] + (wire[1..][..m - 1] + rest.data) == wire[..m] + rest.data;
    }
  }

  // ---------- The buffered reader below

  /** What is unread, of which the first `buffered` bytes are in memory already. */
  class Source {
    var wire: seq<Byte>
    var buffered: nat

    predicate Valid()
      reads this
    {
      buffered <= |wire|
    }

    constructor (wire: seq<Byte>)
      ensures Valid() && this.wire == wire
    {
      this.wire, buffered := wire, 0;
    }

    /** Each read returns as much as happens to be there, at least one byte before the end. */
    method Read(most: nat) returns (p: seq<Byte>, eof: bool)
      requires Valid() && most > 0
      modifies this
      ensures Valid() && eof == (old(wire) == []) && old(wire) == p + wire
      ensures |p| <= most && (!eof ==> p != [])
    {
      if wire == [] {
        return [], true;
      }
      var n :| 0 < n <= most && n <= |wire|;
      p, eof := wire[..n], false;
      wire := wire[n..];
      Refill();
    }

    method Refill()
      modifies this`buffered
      ensures Valid()
    {
      var k :| 0 <= k <= |wire|;
      buffered := k;
    }

    /** io.ReadFull into two bytes. */
    method ReadTwo() returns (p: seq<Byte>, err: Error)
      requires Valid()
      modifies this
      ensures Valid()
      ensures if |old(wire)| >= 2 then err == NoError && p == old(wire)[..2] && wire == old(wire)[2..]
              else wire == [] && err == if old(wire) == [] then EOF else UnexpectedEOF
    {
      if |wire| < 2 {
        p, err := wire, if wire == [] then EOF else UnexpectedEOF;
        wire := [];
      } else {
        p, err := wire[..2], NoError;
        wire := wire[2..];
      }
      Refill();
    }

    /** readChunkLine and parseHexUint. */
    method ReadSize() returns (size: Size)
      requires Valid()
      modifies this
      ensures Valid() && (size, wire) == SizeLine(old(wire))
    {
      var line := SizeLine(wire);
      size, wire := line.0, line.1;
      Refill();
    }
  }

  class Reader {
    const r: Source
    var n: nat
    var err: Error
    var checkEnd: bool

    constructor (r: Source)
      ensures this.r == r && n == 0 && err == NoError && !checkEnd
    {
      this.r, n, err, checkEnd := r, 0, NoError, false;
    }

    ghost predicate Valid()
      reads this, r
    {
      r.Valid() && (checkEnd ==> n == 0)
    }

    /** What reading on would give; nothing more after an error. */
    ghost function Rest(): Decoded
      reads this, r
    {
      if err == NoError then Decode(r.wire, n, checkEnd) else Decoded([], err, r.wire)
    }

    method BeginChunk()
      requires Valid() && err == NoError && n == 0 && !checkEnd
      modifies this, r
      ensures Valid() && !checkEnd && Rest() == old(Rest())
      ensures err == NoError ==> |r.wire| < old(|r.wire|)
    {
      var size := r.ReadSize();
      err := size.err;
      if err != NoError {
        return;
      }
      n := size.n;
      if n == 0 {
        err := EOF;
      }
    }

    predicate ChunkHeaderAvailable()
      requires r.Valid()
      reads this, r
    {
      r.buffered > 0 && LF in r.wire[..r.buffered]
    }

    /** One read from inside a chunk. */
    method ReadSome(room: nat) returns (p: seq<Byte>)
      requires Valid() && err == NoError && n > 0 && !checkEnd && room > 0
      modifies this, r
      ensures Valid() && |p| <= room && old(Rest()) == Rest().(data := p + Rest().data)
      ensures err == NoError ==> |r.wire| < old(|r.wire|)
      ensures p == [] ==> err != NoError
    {
      var most := if room > n then n else room;
      var eof;
      p, eof := r.Read(most);
      ghost var wire := old(r.wire);
      if !eof {
        DecodeMany(wire, n, |p|);
        assert wire[..|p|] == p && wire[|p|..] == r.wire;
      }
      n := n - |p|;
      err := if eof then EOF else NoError;
      if n == 0 && err == NoError {
        checkEnd := true;
      } else if err == EOF {
        err := UnexpectedEOF;
      }
    }

    /** The line end of a finished chunk. */
    method ReadLineEnd()
      requires Valid() && err == NoError && checkEnd
      modifies this, r
      ensures Valid() && Rest() == old(Rest())
      ensures err == NoError ==> !checkEnd && |r.wire| < old(|r.wire|)
    {
      hide SizeLine;
      var buf, e := r.ReadTwo();
      err := e;
      if err == EOF {
        err := UnexpectedEOF;
      }
      if err == NoError && buf != [CR, LF] {
        err := Malformed;
      }
      if err == NoError {
        checkEnd := false;
      }
    }

    /** Reads at most `size` bytes; stops early rather than wait for more. */
    method Read(size: nat) returns (b: seq<Byte>)
      requires Valid()
      modifies this, r
      ensures Valid() && |b| <= size
      ensures old(Rest()) == Rest().(data := b + Rest().data)
      ensures size > 0 && b == [] ==> err != NoError
      ensures old(err) != NoError ==> b == [] && err == old(err) && r.wire == old(r.wire)
    {
      hide SizeLine, Decode, Rest;
      b := [];
      assert [] + Rest().data == Rest().data;
      while err == NoError
        invariant Valid() && |b| <= size
        invariant old(Rest()) == Rest().(data := b + Rest().data)
        invariant old(err) != NoError ==> b == [] && err == old(err) && r.wire == old(r.wire)
        decreases err == NoError, |r.wire|, checkEnd
      {
        if checkEnd {
          if b != [] && r.buffered < 2 {
            break;
          }
          ReadLineEnd();
          if err != NoError {
            break;
          }
        }
        if n == 0 {
          if b != [] && !ChunkHeaderAvailable() {
            break;
          }
          BeginChunk();
          continue;
        }
        if |b| == size {
          break;
        }
        var p := ReadSome(size - |b|);
        assert b + (p + Rest().data) == b + p + Rest().data;
        b := b + p;
      }
    }
  }

  /** Reads of the given sizes one after the other. */
  method ReadAll(cr: Reader, sizes: seq<nat>) returns (all: seq<Byte>)
    requires cr.Valid()
    modifies cr, cr.r
    ensures cr.Valid() && old(cr.Rest()) == cr.Rest().(data := all + cr.Rest().data)
    ensures cr.err != NoError ==> old(cr.Rest()) == Decoded(all, cr.err, cr.r.wire)
    ensures (forall i :: 0 <= i < |sizes| ==> sizes[i] > 0) && |sizes| > |old(cr.Rest()).data| ==> cr.err != NoError
  {
    hide Decode, Source.Valid;
    all := [];
    for i := 0 to |sizes|
      invariant cr.Valid() && old(cr.Rest()) == cr.Rest().(data := all + cr.Rest().data)
      invariant (forall j :: 0 <= j < i ==> sizes[j] > 0) ==> cr.err != NoError || |all| >= i
    {
      ghost var before, rest := all, cr.Rest();
      var b := cr.Read(sizes[i]);
      ghost var tail := cr.Rest().data;
      assert before + rest.data == before + (b + tail) == (before + b) + tail;
      all := all + b;
    }
    assert cr.err != NoError ==> all + [] == all;
  }

  // ---------- The writer

  /** One chunk; empty writes send nothing. */
  function Encoded(data: seq<Byte>): seq<Byte> {
    if data == [] then [] else Hex(|data|) + [CR, LF] + data + [CR, LF]
  }

  function EncodedAll(writes: seq<seq<Byte>>): seq<Byte> {
    if writes == [] then [] else Encoded(writes[0]) + EncodedAll(writes[1..])
  }

  function Joined(writes: seq<seq<Byte>>): seq<Byte> {
    if writes == [] then [] else writes[0] + Joined(writes[1..])
  }

  lemma {:induction false} EncodedAllMore(writes: seq<seq<Byte>>, last: seq<Byte>)
    ensures EncodedAll(writes + [last]) == EncodedAll(writes) + Encoded(last)
  {
    hide Encoded;
    if writes == [] {
      assert [last][1..] == [] && EncodedAll([last]) == Encoded(last) + EncodedAll([]);
    } else {
      assert (writes + [last])[1..] == writes[1..] + [last];
      EncodedAllMore(writes[1..], last);
    }
  }

  class Writer {
    var wire: seq<Byte>

    constructor ()
      ensures wire == []
    {
      wire := [];
    }

    method Write(data: seq<Byte>)
      modifies this
      ensures wire == old(wire) + Encoded(data)
    {
      if |data| == 0 {
        return;
      }
      wire := wire + (Hex(|data|) + [CR, LF]);
      wire := wire + data;
      wire := wire + [CR, LF];
    }

    method Close()
      modifies this
      ensures wire == old(wire) + [48, CR, LF]
    {
      wire := wire + [48, CR, LF];
    }
  }

  /** All writes and the end of the stream, on a fresh wire. */
  method WriteAll(writes: seq<seq<Byte>>) returns (w: Writer)
    ensures w.wire == EncodedAll(writes) + [48, CR, LF]
  {
    w := new Writer();
    for i := 0 to |writes|
      invariant fresh(w) && w.wire == EncodedAll(writes[..i])
    {
      w.Write(writes[i]);
      EncodedAllMore(writes[..i], writes[i]);
      assert writes[..i + 1] == writes[..i] + [writes[i]];
    }
    assert writes[..|writes|] == writes;
    w.Close();
  }

  // ---------- What is written is what is read

  lemma {:induction false} IndexOfFirst(s: seq<Byte>, b: Byte, rest: seq<Byte>)
    requires b !in s
    ensures IndexOf(s + [b] + rest, b) == |s|
  {
    if s != [] {
      assert (s + [b] + rest)[1..] == s[1..] + [b] + rest;
      IndexOfFirst(s[1..], b, rest);
    }
  }

  lemma IndexOfNone(s: seq<Byte>, b: Byte)
    requires b !in s
    ensures IndexOf(s, b) == |s|
  {
  }

  lemma TrimLine(digits: seq<Byte>)
    requires digits != [] && forall k :: 0 <= k < |digits| ==> IsHexDigit(digits[k])
    ensures Trimmed(digits + [CR, LF]) == digits && WithoutExtension(digits) == digits
  {
    var line := digits + [CR, LF];
    assert line[..|line| - 1] == digits + [CR];
    assert (digits + [CR])[..|digits|] == digits;
    assert Trimmed(line) == Trimmed(digits + [CR]) == Trimmed(digits);
    IndexOfNone(digits, SEMICOLON);
  }

  /** A size line as the writer prints it. */
  lemma SizeLineRoundTrip(n: nat, rest: seq<Byte>)
    requires n < Power16(16)
    ensures SizeLine(Hex(n) + [CR, LF] + rest) == (Size(n, NoError), rest)
  {
    hide Hex, IndexOf, Trimmed, WithoutExtension, Power16, HexSize;
    var digits := Hex(n);
    var wire := digits + [CR, LF] + rest;
    HexRoundTrip(n, 16);
    assert wire == (digits + [CR]) + [LF] + rest;
    IndexOfFirst(digits + [CR], LF, rest);
    assert wire[..|digits| + 2] == digits + [CR, LF] && wire[|digits| + 2..] == rest;
    TrimLine(digits);
  }

  // ---------- Size lines in every spelling

  const DIGITS := "0123456789abcdef"
  const CAPITAL_DIGITS := "0123456789ABCDEF"

  /** The byte is the hexadecimal digit of value v, in either case. */
  ghost predicate Denotes(b: Byte, v: nat) {
    v < 16 && (b == DIGITS[v] as int || b == CAPITAL_DIGITS[v] as int)
  }

  lemma DigitMeans(b: Byte, v: nat)
    ensures Denotes(b, v) <==> IsHexDigit(b) && HexValue(b) == v
  {
    if v < 8 {
      assert v == 0 || v == 1 || v == 2 || v == 3 || v == 4 || v == 5 || v == 6 || v == 7;
    } else if v < 16 {
      assert v == 8 || v == 9 || v == 10 || v == 11 || v == 12 || v == 13 || v == 14 || v == 15;
    }
  }

  /** The number these digit values stand for. */
  ghost function Numeral(values: seq<nat>): nat {
    if values == [] then 0 else values[0] * Power16(|values| - 1) + Numeral(values[1..])
  }

  lemma {:induction false} NumeralLast(values: seq<nat>)
    requires values != []
    ensures Numeral(values) == Numeral(values[..|values| - 1]) * 16 + values[|values| - 1]
  {
    var n := |values|;
    if n > 1 {
      var before, after := values[..n - 1], values[1..];
      NumeralLast(after);
      assert after[..n - 2] == before[1..] && before[0] == values[0];
      assert Power16(n - 1) == 16 * Power16(n - 2);
      assert values[0] * (16 * Power16(n - 2)) == values[0] * Power16(n - 2) * 16;
    }
  }

  /** Up to sixteen digits are read as their number, in either case. */
  lemma {:induction false} SpelledSize(text: seq<Byte>, values: seq<nat>)
    requires |text| == |values| <= 16 && forall k :: 0 <= k < |text| ==> Denotes(text[k], values[k])
    ensures HexSize(text) == Size(Numeral(values), NoError)
  {
    hide Denotes;
    if text != [] {
      var n := |text| - 1;
      assert Denotes(text[n], values[n]);
      DigitMeans(text[n], values[n]);
      SpelledSize(text[..n], values[..n]);
      NumeralLast(values);
    }
  }

  /** Anything else is refused: for a byte that is no digit among the first seventeen, or else for its length. */
  lemma {:induction false} SizeRefused(text: seq<Byte>)
    ensures HexSize(text).err == if exists k :: 0 <= k < |text| && k <= 16 && !IsHexDigit(text[k]) then InvalidByte
                                 else if |text| > 16 then LengthTooLarge else NoError
  {
    hide IsHexDigit;
    if text != [] {
      var front := text[..|text| - 1];
      SizeRefused(front);
      if k :| 0 <= k < |front| && k <= 16 && !IsHexDigit(front[k]) {
        assert !IsHexDigit(text[k]);
      } else {
        assert forall k :: 0 <= k < |front| ==> front[k] == text[k];
      }
    }
  }

  lemma {:induction false} TrimmedTail(front: seq<Byte>, tail: seq<Byte>)
    requires front != [] && !IsSpace(front[|front| - 1])
    ensures Trimmed(front + tail) == front + Trimmed(tail)
  {
    if tail == [] {
      assert front + [] == front;
    } else {
      var line := front + tail;
      assert line[|line| - 1] == tail[|tail| - 1];
      assert line[..|line| - 1] == front + tail[..|tail| - 1];
      TrimmedTail(front, tail[..|tail| - 1]);
    }
  }

  lemma {:induction false} TrimmedFirst(line: seq<Byte>)
    ensures Trimmed(line) <= line
    ensures line != [] && !IsSpace(line[0]) ==> Trimmed(line) != []
    ensures (forall k :: 0 <= k < |line| ==> IsSpace(line[k])) ==> Trimmed(line) == []
  {
    if line != [] && IsSpace(line[|line| - 1]) {
      TrimmedFirst(line[..|line| - 1]);
    }
  }

  /** A size may be followed by spaces, or by an extension, which is ignored. */
  lemma SizeLineMeans(digits: seq<Byte>, values: seq<nat>, after: seq<Byte>, rest: seq<Byte>)
    requires 0 < |digits| == |values| <= 16 && forall k :: 0 <= k < |digits| ==> Denotes(digits[k], values[k])
    requires LF !in after && |digits + after| + 1 < 4096
    requires (after != [] && after[0] == SEMICOLON) || forall k :: 0 <= k < |after| ==> after[k] == 32 || after[k] == 9 || after[k] == CR
    ensures SizeLine(digits + after + [LF] + rest) == (Size(Numeral(values), NoError), rest)
  {
    hide Denotes, HexSize, IndexOf, Trimmed;
    forall k | 0 <= k < |digits|
      ensures IsHexDigit(digits[k])
    {
      DigitMeans(digits[k], values[k]);
    }
    var wire, tail := digits + after + [LF] + rest, after + [LF];
    IndexOfFirst(digits + after, LF, rest);
    assert wire[..|digits + after| + 1] == digits + tail && wire[|digits + after| + 1..] == rest;
    TrimmedTail(digits, tail);
    TrimmedFirst(tail);
    var end := Trimmed(tail);
    if end == [] {
      assert digits + end == digits;
      IndexOfNone(digits, SEMICOLON);
    } else {
      assert end[0] == tail[0] == SEMICOLON;
      assert digits + end == digits + [SEMICOLON] + end[1..];
      IndexOfFirst(digits, SEMICOLON, end[1..]);
    }
    assert WithoutExtension(digits + end) == digits;
    SpelledSize(digits, values);
  }

  /** A line that does not end within 4095 bytes is too long, and a wire that ends before that ends unexpectedly. */
  lemma SizeLineRefused(line: seq<Byte>, rest: seq<Byte>)
    requires LF !in line
    ensures |line| < 4096 ==> SizeLine(line).0.err == UnexpectedEOF
    ensures |line| >= 4095 ==> SizeLine(line + [LF] + rest).0.err == LineTooLong
  {
    IndexOfNone(line, LF);
    IndexOfFirst(line, LF, rest);
  }

  lemma ChunkRoundTrip(data: seq<Byte>, rest: seq<Byte>)
    requires 0 < |data| < Power16(16)
    ensures var more := Decode(rest, 0, false);
            Decode(Encoded(data) + rest, 0, false) == more.(data := data + more.data)
  {
    hide SizeLine, Power16, Hex;
    var wire := Encoded(data) + rest;
    var body := data + [CR, LF] + rest;
    assert wire == Hex(|data|) + [CR, LF] + body;
    SizeLineRoundTrip(|data|, body);
    DecodeMany(body, |data|, |data|);
    assert body[..|data|] == data && body[|data|..] == [CR, LF] + rest;
    var end := [CR, LF] + rest;
    assert end[..2] == [CR, LF] && end[2..] == rest;
  }

  lemma {:induction false} WritesRoundTrip(writes: seq<seq<Byte>>, tail: seq<Byte>)
    requires forall i :: 0 <= i < |writes| ==> |writes[i]| < Power16(16)
    ensures Decode(EncodedAll(writes) + [48, CR, LF] + tail, 0, false) == Decoded(Joined(writes), EOF, tail)
  {
    hide SizeLine, Power16, Hex, Encoded;
    if writes == [] {
      assert EncodedAll(writes) + [48, CR, LF] + tail == [48] + [CR, LF] + tail;
      LastLine(tail);
    } else {
      WritesRoundTrip(writes[1..], tail);
      var rest := EncodedAll(writes[1..]) + [48, CR, LF] + tail;
      assert EncodedAll(writes) + [48, CR, LF] + tail == Encoded(writes[0]) + rest;
      if writes[0] == [] {
        assert Encoded(writes[0]) == [] by { EmptyChunk(); }
        assert Encoded(writes[0]) + rest == rest;
        assert Joined(writes) == Joined(writes[1..]);
      } else {
        ChunkRoundTrip(writes[0], rest);
      }
    }
  }

  lemma EmptyChunk()
    ensures Encoded([]) == []
  {
  }

  lemma LastLine(tail: seq<Byte>)
    ensures SizeLine([48] + [CR, LF] + tail) == (Size(0, NoError), tail)
    ensures Decode([48] + [CR, LF] + tail, 0, false) == Decoded([], EOF, tail)
  {
    assert Hex(0) == [48];
    SizeLineRoundTrip(0, tail);
  }

  /** Whatever the write and read sizes, the reader gets the joined writes and then the end, and leaves the tail. */
  method SendAndReceive(writes: seq<seq<Byte>>, tail: seq<Byte>, sizes: seq<nat>) returns (all: seq<Byte>, err: Error, left: seq<Byte>)
    requires forall i :: 0 <= i < |writes| ==> |writes[i]| < Power16(16)
    ensures all <= Joined(writes)
    ensures err == NoError || err == EOF
    ensures err == EOF ==> all == Joined(writes) && left == tail
    ensures (forall i :: 0 <= i < |sizes| ==> sizes[i] > 0) && |sizes| > |Joined(writes)| ==> err == EOF
  {
    hide Power16;
    var w := WriteAll(writes);
    WritesRoundTrip(writes, tail);
    var source := new Source(w.wire + tail);
    var cr := new Reader(source);
    assert cr.Rest() == Decoded(Joined(writes), EOF, tail);
    all := ReadAll(cr, sizes);
    err, left := cr.err, source.wire;
  }
}
