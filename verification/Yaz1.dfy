/** common/mario_kart_wii.go: the check of Yaz1 compressed data against a plain decoder. */
module Yaz1 {
  type Byte = x: int | 0 <= x < 256

  // ---------- A plain decoder

  datatype Decoded = Failed | Done(out: seq<Byte>, pos: nat)

  /** Copies byte by byte, so that a copy may read what it has just written. */
  function Copy(out: seq<Byte>, src: nat, n: nat): (r: seq<Byte>)
    requires src < |out|
    ensures |r| == |out| + n
    decreases n
  {
    if n == 0 then out else Copy(out + [out[src]], src + 1, n - 1)
  }

  /** Every byte of the copy is the one `back` places before it. */
  lemma {:induction false} CopyRepeats(out: seq<Byte>, back: nat, n: nat)
    requires 0 < back <= |out|
    ensures var r := Copy(out, |out| - back, n);
            r[..|out|] == out && forall k :: |out| <= k < |out| + n ==> r[k] == r[k - back]
    decreases n
  {
    if n > 0 {
      var more := out + [out[|out| - back]];
      CopyRepeats(more, back, n - 1);
      assert Copy(out, |out| - back, n) == Copy(more, |more| - back, n - 1);
      assert more[..|out|] == out;
    }
  }

  /** One chunk of the decoder: the output and the position behind it, or None outside data or output. */
  function Chunk(data: seq<Byte>, pos: nat, out: seq<Byte>, literal: bool): (r: Decoded)
    ensures r.Done? ==> pos < r.pos <= |data| && |r.out| > |out|
  {
    if literal then
      if pos >= |data| then Failed else Done(out + [data[pos]], pos + 1)
    else if pos + 1 >= |data| then Failed
    else
      // The first two bytes are one word: four bits of length above twelve bits of distance.
      var run: nat := (data[pos] as int) * 0x100 + data[pos + 1];
      var length, back := run / 0x1000, run % 0x1000 + 1;
      if back > |out| then Failed
      else if length != 0 then Done(Copy(out, |out| - back, length + 2), pos + 2)
      else if pos + 2 >= |data| then Failed
      else Done(Copy(out, |out| - back, data[pos + 2] as int + 0x12), pos + 3)
  }

  function Chunks(data: seq<Byte>, expected: nat, pos: nat, out: seq<Byte>, flags: Byte, j: nat): Decoded
    requires j <= 8 && pos <= |data|
    decreases |data| - pos, 9
  {
    if j == 8 then Groups(data, expected, pos, out)
    else
      var c := Chunk(data, pos, out, flags >= 0x80);
      if c.Failed? || |c.out| >= expected then c
      else Chunks(data, expected, c.pos, c.out, (flags as int) * 2 % 256, j + 1)
  }

  /** Groups of a flag byte and eight chunks, until enough bytes are there. */
  function Groups(data: seq<Byte>, expected: nat, pos: nat, out: seq<Byte>): Decoded
    requires pos <= |data|
    decreases |data| - pos, 8
  {
    if |out| >= expected then Done(out, pos)
    else if pos >= |data| then Failed
    else Chunks(data, expected, pos + 1, out, data[pos], 0)
  }

  // ---------- The check

  /**
   The result of the check.  `wide`: it met a long run whose length byte is above 0xED, which
   it counts in eight bits.  `cut`: it skipped a group of literals that goes on past the end.
   */
  datatype Check = Check(ok: bool, consumed: nat, wide: bool, cut: bool)

  /** A run's distance and length as the check takes them from single bytes. */
  function Distance(data: seq<Byte>, pos: nat): nat
    requires pos + 1 < |data|
  {
    (data[pos] as int) % 16 * 256 + data[pos + 1]
  }

  function IsLong(data: seq<Byte>, pos: nat): bool
    requires pos < |data|
  {
    data[pos] / 16 == 0
  }

  /** One chunk of the check: where it stands afterwards. */
  datatype Step = Bad(at: nat) | Next(at: nat, decoded: nat, wide: bool)

  function ChunkStep(data: seq<Byte>, i: nat, decoded: nat, literal: bool): (r: Step)
    ensures r.Next? ==> i < r.at && (literal || r.at <= |data|)
    ensures r.Next? && literal ==> r == Next(i + 1, decoded + 1, false)
  {
    if literal then Next(i + 1, decoded + 1, false)
    else if i + 1 >= |data| then Bad(i)
    else if decoded < Distance(data, i) + 1 then Bad(i + 2)
    else if !IsLong(data, i) then Next(i + 2, decoded + data[i] / 16 + 2, false)
    else if i + 2 >= |data| then Bad(i + 2)
    else Next(i + 3, decoded + (data[i + 2] as int + 0x12) % 256, data[i + 2] > 0xed)
  }

  function CheckChunks(data: seq<Byte>, expected: nat, i: nat, decoded: nat, flags: Byte, j: nat): Check
    requires j <= 8 && i <= |data| + j && decoded < expected
    decreases |data| + 9 - i, 9
  {
    if j == 8 then CheckGroups(data, expected, i, decoded)
    else
      var c := ChunkStep(data, i, decoded, flags >= 0x80);
      if c.Bad? then Check(false, c.at, false, false)
      else
        var rest := if c.decoded >= expected then CheckEnd(data, expected, c.at, c.decoded)
                    else CheckChunks(data, expected, c.at, c.decoded, (flags as int) * 2 % 256, j + 1);
        rest.(wide := rest.wide || c.wide)
  }

  function CheckEnd(data: seq<Byte>, expected: nat, i: nat, decoded: nat): Check {
    Check(decoded <= expected && i <= |data|, i, false, false)
  }

  function CheckGroups(data: seq<Byte>, expected: nat, i: nat, decoded: nat): Check
    requires i <= |data| + 8
    decreases |data| + 9 - i, 8
  {
    if decoded >= expected then CheckEnd(data, expected, i, decoded)
    else if i >= |data| then Check(false, i, false, false)
    else if data[i] == 0xff then
      var rest := CheckGroups(data, expected, i + 9, decoded + 8);
      rest.(cut := rest.cut || decoded + 8 > expected)
    else CheckChunks(data, expected, i + 1, decoded, data[i], 0)
  }

  /** The body of the inner loop. */
  method VerifyChunk(szsData: seq<Byte>, at: nat, before: nat, flags: Byte) returns (ok: bool, i: nat, decoded: nat)
    ensures match ChunkStep(szsData, at, before, flags >= 0x80)
            case Bad(a) => !ok && i == a
            case Next(a, d, _) => ok && i == a && decoded == d
  {
    i, decoded := at, before;
    if flags < 0x80 {
      if i + 1 >= |szsData| {
        return false, i, decoded;
      }
      var copyLen: int := szsData[i] / 16 + 2;
      var copySrc: int := (szsData[i] as int) % 16 * 256 + szsData[i + 1];
      copySrc := decoded - copySrc - 1;
      i := i + 2;
      if copySrc < 0 {
        return false, i, decoded;
      }
      if copyLen == 2 {
        if i >= |szsData| {
          return false, i, decoded;
        }
        copyLen := (szsData[i] as int + 0x12) % 256;
        i := i + 1;
      }
      decoded := decoded + copyLen;
    } else {
      decoded := decoded + 1;
      i := i + 1;
    }
    return true, i, decoded;
  }

  /** The inner loop over the eight chunks of a group. */
  method VerifyGroup(szsData: seq<Byte>, expected: nat, at: nat, before: nat, groupFlags: Byte) returns (ok: bool, i: nat, decoded: nat)
    requires at <= |szsData| && before < expected
    ensures ok ==> i <= |szsData| + 8
    ensures var c := CheckChunks(szsData, expected, at, before, groupFlags, 0);
            if !ok then !c.ok && c.consumed == i
            else i > at && var d := CheckGroups(szsData, expected, i, decoded); c.ok == d.ok && c.consumed == d.consumed
  {
    hide ChunkStep;
    var flags: Byte := groupFlags;
    i, decoded := at, before;
    ghost var all := CheckChunks(szsData, expected, at, before, groupFlags, 0);
    var j := 0;
    while j < 8
      invariant j <= 8 && at <= i <= |szsData| + j && decoded < expected && (j > 0 ==> i > at)
      invariant var c := CheckChunks(szsData, expected, i, decoded, flags, j); all.ok == c.ok && all.consumed == c.consumed
    {
      ok, i, decoded := VerifyChunk(szsData, i, decoded, flags);
      if !ok {
        return;
      }
      if decoded >= expected {
        return;
      }
      flags := (flags as int) * 2 % 256;
      j := j + 1;
    }
    ok := true;
  }

  /** VerifyYaz1Data; the messages it logs are left out. */
  method VerifyYaz1Data(szsData: seq<Byte>, expected: nat, start: nat) returns (ok: bool, i: nat)
    ensures var c := CheckGroups(szsData, expected, 0, start); ok == c.ok && i == c.consumed
  {
    hide CheckChunks;
    var decoded: nat := start;
    i := 0;
    ghost var all := CheckGroups(szsData, expected, 0, start);
    while decoded < expected
      invariant i <= |szsData| + 8
      invariant var c := CheckGroups(szsData, expected, i, decoded); all.ok == c.ok && all.consumed == c.consumed
      decreases |szsData| + 9 - i
    {
      if i >= |szsData| {
        return false, i;
      }
      var flags: Byte := szsData[i];
      i := i + 1;
      if flags == 0xff {
        decoded := decoded + 8;
        i := i + 8;
        continue;
      }
      ok, i, decoded := VerifyGroup(szsData, expected, i, decoded, flags);
      if !ok {
        return;
      }
    }
    if decoded > expected {
      return false, i;
    }
    if i > |szsData| {
      return false, i;
    }
    return true, i;
  }

  // ---------- Without wide runs the check agrees with the decoder

  /** An accepted walk never passes the end of the data or the expected size. */
  lemma {:induction false} GroupsAccepted(data: seq<Byte>, expected: nat, i: nat, decoded: nat)
    requires i <= |data| + 8 && CheckGroups(data, expected, i, decoded).ok
    ensures decoded <= expected && i <= CheckGroups(data, expected, i, decoded).consumed <= |data|
    ensures decoded < expected ==> i < CheckGroups(data, expected, i, decoded).consumed
    decreases |data| + 9 - i, 8
  {
    if decoded < expected {
      if data[i] == 0xff {
        GroupsAccepted(data, expected, i + 9, decoded + 8);
      } else {
        ChunksAccepted(data, expected, i + 1, decoded, data[i], 0);
      }
    }
  }

  lemma {:induction false} ChunksAccepted(data: seq<Byte>, expected: nat, i: nat, decoded: nat, flags: Byte, j: nat)
    requires j <= 8 && i <= |data| + j && decoded < expected && CheckChunks(data, expected, i, decoded, flags, j).ok
    ensures i < CheckChunks(data, expected, i, decoded, flags, j).consumed <= |data|
    decreases |data| + 9 - i, 9
  {
    hide ChunkStep;
    if j == 8 {
      GroupsAccepted(data, expected, i, decoded);
    } else {
      var c := ChunkStep(data, i, decoded, flags >= 0x80);
      if c.decoded < expected {
        ChunksAccepted(data, expected, c.at, c.decoded, (flags as int) * 2 % 256, j + 1);
      }
    }
  }

  /** The decoder wrote exactly the expected bytes from exactly the consumed prefix. */
  predicate Exact(d: Decoded, expected: nat, consumed: nat) {
    d.Done? && |d.out| == expected && d.pos == consumed
  }

  /** Where the decoder stands after a chunk the check passed, and where it fails when the check does. */
  lemma ChunkAgrees(data: seq<Byte>, i: nat, out: seq<Byte>, literal: bool)
    requires i <= |data|
    ensures var s := ChunkStep(data, i, |out|, literal);
            var c := Chunk(data, i, out, literal);
            && (s.Bad? ==> c.Failed?)
            && (s.Next? && s.at <= |data| ==> c.Done? && c.pos == s.at && (if s.wide then |c.out| == s.decoded + 256 else |c.out| == s.decoded))
            && (s.Next? && s.at > |data| ==> c.Failed?)
  {
    if !literal && i + 1 < |data| {
      RunParts(data[i], data[i + 1]);
    }
  }

  lemma RunParts(a: Byte, b: Byte)
    ensures var run: int := (a as int) * 0x100 + b; run / 0x1000 == a / 16 && run % 0x1000 == (a as int) % 16 * 256 + b
  {
    var run: int := (a as int) * 0x100 + b;
    assert run == (a / 16) * 0x1000 + ((a as int) % 16 * 256 + b);
  }

  /** Flags after j shifts of a group of eight literals. */
  predicate AllLiterals(flags: Byte, j: nat) {
    (j == 0 && flags == 0xff) || (j == 1 && flags == 0xfe) || (j == 2 && flags == 0xfc) || (j == 3 && flags == 0xf8)
    || (j == 4 && flags == 0xf0) || (j == 5 && flags == 0xe0) || (j == 6 && flags == 0xc0) || (j == 7 && flags == 0x80) || j == 8
  }

  lemma NextLiteral(flags: Byte, j: nat)
    requires AllLiterals(flags, j) && j < 8
    ensures flags >= 0x80 && AllLiterals((flags as int) * 2 % 256, j + 1)
  {
  }

  lemma {:induction false} LiteralGroup(data: seq<Byte>, expected: nat, pos: nat, out: seq<Byte>, flags: Byte, j: nat)
    requires j <= 8 && pos <= |data| && AllLiterals(flags, j) && |out| + 8 - j <= expected
    ensures pos + 8 - j <= |data| ==>
              Chunks(data, expected, pos, out, flags, j) == Groups(data, expected, pos + 8 - j, out + data[pos..pos + 8 - j])
    ensures pos + 8 - j > |data| ==> Chunks(data, expected, pos, out, flags, j).Failed?
    decreases 8 - j
  {
    hide AllLiterals, Groups;
    if j == 8 {
      assert out + data[pos..pos] == out;
    } else {
      NextLiteral(flags, j);
      if pos < |data| {
        var next := out + [data[pos]];
        if |next| < expected {
          LiteralGroup(data, expected, pos + 1, next, (flags as int) * 2 % 256, j + 1);
          if pos + 8 - j <= |data| {
            assert next + data[pos + 1..pos + 8 - j] == out + data[pos..pos + 8 - j];
          }
        } else {
          assert j == 7 && data[pos..pos + 1] == [data[pos]];
          GroupsDone(data, expected, pos + 1, next);
        }
      }
    }
  }

  lemma GroupsDone(data: seq<Byte>, expected: nat, pos: nat, out: seq<Byte>)
    requires pos <= |data| && |out| >= expected
    ensures Groups(data, expected, pos, out) == Done(out, pos)
  {
  }

  lemma {:induction false} GroupsAgree(data: seq<Byte>, expected: nat, i: nat, out: seq<Byte>)
    requires i <= |data|
    ensures var k := CheckGroups(data, expected, i, |out|);
            var d := Groups(data, expected, i, out);
            && (!k.wide && k.ok ==> Exact(d, expected, k.consumed))
            && (!k.wide && !k.ok && !k.cut ==> !(d.Done? && |d.out| == expected))
    decreases |data| - i, 8
  {
    hide Chunks, CheckChunks;
    if |out| < expected && i < |data| {
      if data[i] == 0xff {
        if |out| + 8 <= expected {
          LiteralGroup(data, expected, i + 1, out, 0xff, 0);
          if i + 9 <= |data| {
            GroupsAgree(data, expected, i + 9, out + data[i + 1..i + 9]);
          } else if CheckGroups(data, expected, i + 9, |out| + 8).ok {
            GroupsAccepted(data, expected, i + 9, |out| + 8);
          }
        }
      } else {
        ChunksAgree(data, expected, i + 1, out, data[i], 0);
      }
    }
  }

  lemma {:induction false} ChunksAgree(data: seq<Byte>, expected: nat, i: nat, out: seq<Byte>, flags: Byte, j: nat)
    requires j <= 8 && i <= |data| && |out| < expected
    ensures var k := CheckChunks(data, expected, i, |out|, flags, j);
            var d := Chunks(data, expected, i, out, flags, j);
            && (!k.wide && k.ok ==> Exact(d, expected, k.consumed))
            && (!k.wide && !k.ok && !k.cut ==> !(d.Done? && |d.out| == expected))
    decreases |data| - i, 9
  {
    hide ChunkStep, Chunk, Groups, CheckGroups;
    if j == 8 {
      GroupsAgree(data, expected, i, out);
    } else {
      ChunkAgrees(data, i, out, flags >= 0x80);
      var c := ChunkStep(data, i, |out|, flags >= 0x80);
      if c.Next? && !c.wide && c.decoded < expected {
        if c.at <= |data| {
          ChunksAgree(data, expected, c.at, Chunk(data, i, out, flags >= 0x80).out, (flags as int) * 2 % 256, j + 1);
        } else if CheckChunks(data, expected, c.at, c.decoded, (flags as int) * 2 % 256, j + 1).ok {
          ChunksAccepted(data, expected, c.at, c.decoded, (flags as int) * 2 % 256, j + 1);
        }
      }
    }
  }

  lemma {:induction false} CutRejected(data: seq<Byte>, expected: nat, i: nat, decoded: nat)
    requires i <= |data| + 8
    ensures CheckGroups(data, expected, i, decoded).cut ==> !CheckGroups(data, expected, i, decoded).ok
    decreases |data| + 9 - i, 8
  {
    hide CheckChunks;
    if decoded < expected && i < |data| {
      if data[i] == 0xff {
        CutRejected(data, expected, i + 9, decoded + 8);
      } else {
        CutRejectedIn(data, expected, i + 1, decoded, data[i], 0);
      }
    }
  }

  lemma {:induction false} CutRejectedIn(data: seq<Byte>, expected: nat, i: nat, decoded: nat, flags: Byte, j: nat)
    requires j <= 8 && i <= |data| + j && decoded < expected
    ensures CheckChunks(data, expected, i, decoded, flags, j).cut ==> !CheckChunks(data, expected, i, decoded, flags, j).ok
    decreases |data| + 9 - i, 9
  {
    hide ChunkStep;
    if j == 8 {
      CutRejected(data, expected, i, decoded);
    } else {
      var c := ChunkStep(data, i, decoded, flags >= 0x80);
      if c.Next? && c.decoded < expected {
        CutRejectedIn(data, expected, c.at, c.decoded, (flags as int) * 2 % 256, j + 1);
      }
    }
  }

  // ---------- A wide run makes an accepted stream decode to something else

  /** Once the decoder is ahead of the count it cannot end where the check does. */
  lemma {:induction false} GroupsDiverge(data: seq<Byte>, expected: nat, i: nat, decoded: nat, out: seq<Byte>)
    requires i <= |data| && |out| > decoded && CheckGroups(data, expected, i, decoded).ok
    ensures !Exact(Groups(data, expected, i, out), expected, CheckGroups(data, expected, i, decoded).consumed)
    decreases |data| - i, 8
  {
    hide Chunks, CheckChunks;
    GroupsAccepted(data, expected, i, decoded);
    if |out| < expected {
      if data[i] == 0xff {
        LiteralsDiverge(data, expected, i + 1, decoded + 8, out, 0xff, 0);
      } else {
        ChunksDiverge(data, expected, i + 1, decoded, out, data[i], 0);
      }
    }
  }

  /** Inside a group of literals, which the check has counted already. */
  lemma {:induction false} LiteralsDiverge(data: seq<Byte>, expected: nat, pos: nat, decoded: nat, out: seq<Byte>, flags: Byte, j: nat)
    requires j <= 8 && pos <= |data| && AllLiterals(flags, j) && |out| + 8 - j > decoded
    requires CheckGroups(data, expected, pos + 8 - j, decoded).ok && |out| < expected
    ensures !Exact(Chunks(data, expected, pos, out, flags, j), expected, CheckGroups(data, expected, pos + 8 - j, decoded).consumed)
    decreases |data| - pos, 9
  {
    hide AllLiterals, Groups, CheckGroups;
    GroupsAccepted(data, expected, pos + 8 - j, decoded);
    if j == 8 {
      GroupsDiverge(data, expected, pos, decoded, out);
    } else {
      NextLiteral(flags, j);
      if pos < |data| && |out| + 1 < expected {
        LiteralsDiverge(data, expected, pos + 1, decoded, out + [data[pos]], (flags as int) * 2 % 256, j + 1);
      }
    }
  }

  lemma {:induction false} ChunksDiverge(data: seq<Byte>, expected: nat, i: nat, decoded: nat, out: seq<Byte>, flags: Byte, j: nat)
    requires j <= 8 && i <= |data| && |out| > decoded && |out| < expected && CheckChunks(data, expected, i, decoded, flags, j).ok
    ensures !Exact(Chunks(data, expected, i, out, flags, j), expected, CheckChunks(data, expected, i, decoded, flags, j).consumed)
    decreases |data| - i, 9
  {
    hide Groups, CheckGroups, Chunk, ChunkStep;
    if j == 8 {
      GroupsDiverge(data, expected, i, decoded, out);
    } else {
      var c := ChunkStep(data, i, decoded, flags >= 0x80);
      ChunkAhead(data, i, decoded, out, flags >= 0x80);
      var next := (flags as int) * 2 % 256;
      if c.decoded < expected {
        ChunksAccepted(data, expected, c.at, c.decoded, next, j + 1);
        var d := Chunk(data, i, out, flags >= 0x80);
        if |d.out| < expected {
          ChunksDiverge(data, expected, c.at, c.decoded, d.out, next, j + 1);
        }
      }
    }
  }

  lemma ChunkAhead(data: seq<Byte>, i: nat, decoded: nat, out: seq<Byte>, literal: bool)
    requires i <= |data| && |out| > decoded && ChunkStep(data, i, decoded, literal).Next?
    ensures var s := ChunkStep(data, i, decoded, literal);
            s.at <= |data| ==> Chunk(data, i, out, literal).Done? && Chunk(data, i, out, literal).pos == s.at && |Chunk(data, i, out, literal).out| > s.decoded
    ensures var s := ChunkStep(data, i, decoded, literal); s.at > |data| ==> Chunk(data, i, out, literal).Failed?
  {
  }

  lemma {:induction false} GroupsWide(data: seq<Byte>, expected: nat, i: nat, out: seq<Byte>)
    requires i <= |data| && CheckGroups(data, expected, i, |out|).ok && CheckGroups(data, expected, i, |out|).wide
    ensures !Exact(Groups(data, expected, i, out), expected, CheckGroups(data, expected, i, |out|).consumed)
    decreases |data| - i, 8
  {
    hide Chunks, CheckChunks;
    GroupsAccepted(data, expected, i, |out|);
    if data[i] == 0xff {
      GroupsAccepted(data, expected, i + 9, |out| + 8);
      LiteralGroup(data, expected, i + 1, out, 0xff, 0);
      GroupsWide(data, expected, i + 9, out + data[i + 1..i + 9]);
    } else {
      ChunksWide(data, expected, i + 1, out, data[i], 0);
    }
  }

  lemma {:induction false} ChunksWide(data: seq<Byte>, expected: nat, i: nat, out: seq<Byte>, flags: Byte, j: nat)
    requires j <= 8 && i <= |data| && |out| < expected
    requires CheckChunks(data, expected, i, |out|, flags, j).ok && CheckChunks(data, expected, i, |out|, flags, j).wide
    ensures !Exact(Chunks(data, expected, i, out, flags, j), expected, CheckChunks(data, expected, i, |out|, flags, j).consumed)
    decreases |data| - i, 9
  {
    hide Groups, CheckGroups, Chunk, ChunkStep;
    if j == 8 {
      GroupsWide(data, expected, i, out);
    } else {
      var c := ChunkStep(data, i, |out|, flags >= 0x80);
      ChunkAgrees(data, i, out, flags >= 0x80);
      var next := (flags as int) * 2 % 256;
      if c.decoded < expected {
        ChunksAccepted(data, expected, c.at, c.decoded, next, j + 1);
        var d := Chunk(data, i, out, flags >= 0x80);
        if |d.out| < expected {
          if c.wide {
            ChunksDiverge(data, expected, c.at, c.decoded, d.out, next, j + 1);
          } else {
            ChunksWide(data, expected, c.at, d.out, next, j + 1);
          }
        }
      }
    }
  }

  /**
   An accepted stream decodes to exactly the expected size from exactly the consumed prefix
   if and only if no long run it met has a length byte above 0xED.
   */
  lemma AcceptedExact(data: seq<Byte>, expected: nat)
    requires CheckGroups(data, expected, 0, 0).ok
    ensures Exact(Groups(data, expected, 0, []), expected, CheckGroups(data, expected, 0, 0).consumed) <==>
              !CheckGroups(data, expected, 0, 0).wide
  {
    hide CheckGroups, Groups;
    GroupsAgree(data, expected, 0, []);
    if CheckGroups(data, expected, 0, 0).wide {
      GroupsWide(data, expected, 0, []);
    }
  }

  /** Without such a run, exactly the streams that decode to the expected size are accepted, but for cut groups. */
  lemma AcceptsIffExact(data: seq<Byte>, expected: nat)
    requires !CheckGroups(data, expected, 0, 0).wide
    ensures var k := CheckGroups(data, expected, 0, 0);
            var d := Groups(data, expected, 0, []);
            k.ok <==> d.Done? && |d.out| == expected && !k.cut
  {
    hide CheckGroups, Groups;
    GroupsAgree(data, expected, 0, []);
    CutRejected(data, expected, 0, 0);
  }

  /** The check accepts this stream for 3 bytes, but a decoder writes 256 more. */
  const WIDE_RUN: seq<Byte> := [0xa0, 7, 0, 0, 0xf0]

  lemma WideRunAccepted()
    ensures CheckGroups(WIDE_RUN, 3, 0, 0).ok && CheckGroups(WIDE_RUN, 3, 0, 0).wide
    ensures Groups(WIDE_RUN, 3, 0, []).Done? && |Groups(WIDE_RUN, 3, 0, []).out| == 259
  {
  }
}
