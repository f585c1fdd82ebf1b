/**
 common/encryption.go: the stream cipher of the server list, which permutes its own
 256-byte key as it goes.  Bytes are numbers below 256.
 */
module Cipher {
  type Byte = x: int | 0 <= x < 256

  // ---------- Exclusive or

  function XorBits(a: nat, b: nat, n: nat): nat
    decreases n
  {
    if n == 0 then 0 else 2 * XorBits(a / 2, b / 2, n - 1) + (if a % 2 == b % 2 then 0 else 1)
  }

  function Xor(a: Byte, b: Byte): Byte {
    XorBound(a, b, 8);
    XorBits(a, b, 8)
  }

  lemma {:induction false} XorBound(a: nat, b: nat, n: nat)
    ensures XorBits(a, b, n) < Pow2(n)
  {
    if n > 0 {
      XorBound(a / 2, b / 2, n - 1);
    }
  }

  function Pow2(n: nat): (r: nat)
    ensures r > 0
  {
    if n == 0 then 1 else 2 * Pow2(n - 1)
  }

  lemma {:induction false} XorBitsCancel(a: nat, b: nat, n: nat)
    requires b < Pow2(n)
    ensures XorBits(a, XorBits(a, b, n), n) == b
  {
    if n > 0 {
      var r := XorBits(a / 2, b / 2, n - 1);
      assert XorBits(a, b, n) / 2 == r;
      XorBitsCancel(a / 2, b / 2, n - 1);
    }
  }

  lemma {:induction false} XorBitsSwap(a: nat, b: nat, c: nat, n: nat)
    ensures XorBits(a, XorBits(b, c, n), n) == XorBits(b, XorBits(a, c, n), n)
  {
    if n > 0 {
      assert XorBits(b, c, n) / 2 == XorBits(b / 2, c / 2, n - 1);
      assert XorBits(a, c, n) / 2 == XorBits(a / 2, c / 2, n - 1);
      XorBitsSwap(a / 2, b / 2, c / 2, n - 1);
    }
  }

  /** Masking twice with the same two bytes gives the byte back. */
  lemma XorTwice(a: Byte, b: Byte, d: Byte)
    ensures Xor(a, Xor(b, Xor(a, Xor(b, d)))) == d
  {
    XorBound(b, d, 8);
    XorBitsSwap(b, a, XorBits(b, d, 8), 8);
    XorBitsCancel(b, d, 8);
    XorBitsCancel(a, d, 8);
  }

  lemma XorCancel(a: Byte, b: Byte)
    ensures Xor(a, Xor(a, b)) == b && Xor(Xor(b, a), a) == b
  {
    XorBitsCancel(a, b, 8);
    XorBitsComm(Xor(b, a), a, 8);
    XorBitsComm(b, a, 8);
  }

  lemma {:induction false} XorBitsComm(a: nat, b: nat, n: nat)
    ensures XorBits(a, b, n) == XorBits(b, a, n)
  {
    if n > 0 {
      XorBitsComm(a / 2, b / 2, n - 1);
    }
  }

  function Add(a: Byte, b: Byte): Byte {
    (a + b) % 256
  }

  // ---------- The key

  /** 256 bytes to be permuted and five registers. */
  type Key = k: seq<Byte> | |k| == 261 witness seq(261, i => 0)

  ghost predicate Occurs(k: Key, v: Byte) {
    exists i :: 0 <= i < 256 && k[i] == v
  }

  /** The first 256 bytes are a permutation of 0 to 255. */
  ghost predicate Permutation(k: Key) {
    && (forall i, j :: 0 <= i < j < 256 ==> k[i] != k[j])
    && (forall v: Byte :: Occurs(k, v))
  }

  lemma SwapPermutes(k: Key, i: Byte, j: Byte)
    requires Permutation(k)
    ensures Permutation(k[i := k[j]][j := k[i]])
  {
    var r := k[i := k[j]][j := k[i]];
    forall v: Byte
      ensures Occurs(r, v)
    {
      assert Occurs(k, v);
      var p :| 0 <= p < 256 && k[p] == v;
      assert r[if p == i then j else if p == j then i else p] == v;
    }
  }

  /** Where c belongs moves from h to g: the place is filled with g's byte. */
  lemma HoleMoves(k: Key, h: Byte, g: Byte, c: Byte)
    requires Permutation(k[h := c])
    ensures Permutation(k[h := k[g]][g := c])
  {
    SwapPermutes(k[h := c], h, g);
    assert k[h := k[g]][g := c] == k[h := c][h := k[h := c][g]][g := k[h := c][h]];
  }

  lemma RegistersApart(k: Key, r: int, v: Byte)
    requires Permutation(k) && 256 <= r < 261
    ensures Permutation(k[r := v])
  {
    var q := k[r := v];
    forall v: Byte
      ensures Occurs(q, v)
    {
      assert Occurs(k, v);
      var p :| 0 <= p < 256 && k[p] == v;
      assert q[p] == v;
    }
  }

  // ---------- One byte

  /** The four moves with a byte held in hand: c leaves register 260's place and ends in 256's. */
  function Moved(k: Key): Key {
    var k0 := k[256 := Add(k[256], 1)][257 := Add(k[257], k[k[256]])];
    var c := k0[k0[260]];
    var k1 := k0[k0[260] := k0[k0[257]]];
    var k2 := k1[k1[257] := k1[k1[259]]];
    var k3 := k2[k2[259] := k2[k2[256]]];
    var k4 := k3[k3[256] := c];
    k4[258 := Add(k4[258], k4[c])]
  }

  /** The key byte for the next data byte. */
  function Mask(k: Key): (Byte, Byte) {
    var s := Add(Add(k[k[257]], k[k[259]]), k[k[260]]);
    (k[k[s]], k[Add(k[k[258]], k[k[256]])])
  }

  function Masked(k: Key, d: Byte): Byte {
    Xor(Mask(k).0, Xor(Mask(k).1, d))
  }

  /** func7e: the key afterwards and the encrypted byte. */
  function Encrypted(k: Key, d: Byte): (Key, Byte) {
    var m := Moved(k);
    var c := Masked(m, d);
    (m[260 := c][259 := d], c)
  }

  /** What the receiver does: registers 259 and 260 hold the plain and the encrypted byte. */
  function Decrypted(k: Key, c: Byte): (Key, Byte) {
    var m := Moved(k);
    var d := Masked(m, c);
    (m[260 := c][259 := d], d)
  }

  lemma ByteRoundTrip(k: Key, d: Byte)
    ensures Decrypted(k, Encrypted(k, d).1) == (Encrypted(k, d).0, d)
  {
    hide Xor, Moved;
    var m := Moved(k);
    XorTwice(Mask(m).0, Mask(m).1, d);
  }

  lemma MovedPermutes(k: Key)
    requires Permutation(k)
    ensures Permutation(Moved(k))
  {
    hide Permutation;
    var k0 := k[256 := Add(k[256], 1)][257 := Add(k[257], k[k[256]])];
    RegistersApart(k, 256, Add(k[256], 1));
    RegistersApart(k[256 := Add(k[256], 1)], 257, Add(k[257], k[k[256]]));
    var c := k0[k0[260]];
    assert k0[k0[260] := c] == k0;
    HoleMoves(k0, k0[260], k0[257], c);
    var k1 := k0[k0[260] := k0[k0[257]]];
    HoleMoves(k1, k1[257], k1[259], c);
    var k2 := k1[k1[257] := k1[k1[259]]];
    HoleMoves(k2, k2[259], k2[256], c);
    var k3 := k2[k2[259] := k2[k2[256]]];
    var k4 := k3[k3[256] := c];
    assert k1[257] == k0[257] && k2[259] == k1[259] == k0[259] && k3[256] == k2[256];
    RegistersApart(k4, 258, Add(k4[258], k4[c]));
  }

  /** Encrypting a byte keeps the permutation, wherever the four registers point. */
  lemma EncryptedPermutes(k: Key, d: Byte)
    requires Permutation(k)
    ensures Permutation(Encrypted(k, d).0)
  {
    hide Permutation, Moved, Masked;
    MovedPermutes(k);
    var c := Encrypted(k, d).1;
    RegistersApart(Moved(k), 260, c);
    RegistersApart(Moved(k)[260 := c], 259, d);
  }

  // ---------- What the moves and the mask are

  /** When the four places differ, their bytes go round in a cycle; no other of the 256 bytes moves. */
  lemma MovedCycle(k: Key)
    requires var t, q, r, p := Add(k[256], 1), Add(k[257], k[k[256]]), k[259], k[260];
             t != q && t != r && t != p && q != r && q != p && r != p
    ensures var m, t, q, r, p := Moved(k), Add(k[256], 1), Add(k[257], k[k[256]]), k[259], k[260];
            && m[p] == k[q] && m[q] == k[r] && m[r] == k[t] && m[t] == k[p]
            && (forall i :: 0 <= i < 256 && i != t && i != q && i != r && i != p ==> m[i] == k[i])
            && m[256] == t && m[257] == q && m[258] == Add(k[258], m[k[p]]) && m[259] == r && m[260] == p
  {
  }

  ghost function Low(x: int): Byte {
    x % 256
  }

  /** On a key that only rotates the bytes the mask is a sum of registers and rotations. */
  lemma RotationMask(k: Key, r: Byte)
    requires forall i :: 0 <= i < 256 ==> k[i] == Low(i + r)
    ensures Mask(k) == (Low(k[257] + k[259] + k[260] + 5 * r), Low(k[258] + k[256] + 3 * r))
  {
    hide Add, Low;
    LowSum(k[257] + r, k[259] + r);
    LowSum(k[257] + k[259] + 2 * r, k[260] + r);
    LowSum(k[257] + k[259] + k[260] + 3 * r, r);
    LowSum(k[257] + k[259] + k[260] + 4 * r, r);
    LowSum(k[258] + r, k[256] + r);
    LowSum(k[258] + k[256] + 2 * r, r);
  }

  lemma LowSum(a: int, b: int)
    ensures Add(Low(a), Low(b)) == Low(a + b) && Low(Low(a) + b) == Low(a + b)
  {
  }

  /** One byte encrypted by hand. */
  lemma KnownByte(k: Key)
    requires forall i :: 0 <= i < 256 ==> k[i] == i
    requires k[256] == 10 && k[257] == 20 && k[258] == 30 && k[259] == 40 && k[260] == 50
    ensures Encrypted(k, 0x41).1 == 126 && Encrypted(k, 0x41).0[256..] == [11, 30, 60, 0x41, 126]
  {
    hide Xor, Moved, Mask;
    KnownMove(k);
    KnownMask(Moved(k));
    KnownXor();
  }

  lemma KnownMove(k: Key)
    requires forall i :: 0 <= i < 256 ==> k[i] == i
    requires k[256] == 10 && k[257] == 20 && k[258] == 30 && k[259] == 40 && k[260] == 50
    ensures var m := Moved(k);
            && m[50] == 30 && m[30] == 40 && m[40] == 11 && m[11] == 50 && m[81] == 81 && m[110] == 110 && m[60] == 60
            && m[256] == 11 && m[257] == 30 && m[258] == 60 && m[259] == 40 && m[260] == 50
  {
    hide Moved;
    MovedCycle(k);
  }

  lemma KnownMask(m: Key)
    requires m[50] == 30 && m[30] == 40 && m[40] == 11 && m[11] == 50 && m[81] == 81 && m[110] == 110 && m[60] == 60
    requires m[256] == 11 && m[257] == 30 && m[258] == 60 && m[259] == 40 && m[260] == 50
    ensures Mask(m) == (81, 110)
  {
  }

  lemma XorStep(a: nat, b: nat, n: nat)
    ensures XorBits(a, b, n) == if n == 0 then 0 else 2 * XorBits(a / 2, b / 2, n - 1) + (if a % 2 == b % 2 then 0 else 1)
  {
  }

  lemma KnownXor()
    ensures Xor(81, Xor(110, 0x41)) == 126
  {
    hide XorBits;
    XorStep(0, 0, 0);
    XorStep(0, 0, 1);
    XorStep(1, 1, 2);
    XorStep(3, 2, 3);
    XorStep(6, 4, 4);
    XorStep(13, 8, 5);
    XorStep(27, 16, 6);
    XorStep(55, 32, 7);
    XorStep(110, 0x41, 8);
    XorStep(1, 0, 2);
    XorStep(2, 1, 3);
    XorStep(5, 2, 4);
    XorStep(10, 5, 5);
    XorStep(20, 11, 6);
    XorStep(40, 23, 7);
    XorStep(81, 47, 8);
  }

  // ---------- Streams of bytes

  function EncryptedAll(k: Key, data: seq<Byte>): (r: (Key, seq<Byte>))
    ensures |r.1| == |data|
  {
    if data == [] then (k, [])
    else
      var before := EncryptedAll(k, data[..|data| - 1]);
      var last := Encrypted(before.0, data[|data| - 1]);
      (last.0, before.1 + [last.1])
  }

  function DecryptedAll(k: Key, data: seq<Byte>): (r: (Key, seq<Byte>))
    ensures |r.1| == |data|
  {
    if data == [] then (k, [])
    else
      var before := DecryptedAll(k, data[..|data| - 1]);
      var last := Decrypted(before.0, data[|data| - 1]);
      (last.0, before.1 + [last.1])
  }

  /** The receiver gets the data back and keeps the same key as the sender. */
  lemma {:induction false} StreamRoundTrip(k: Key, data: seq<Byte>)
    ensures DecryptedAll(k, EncryptedAll(k, data).1) == (EncryptedAll(k, data).0, data)
  {
    hide Encrypted, Decrypted;
    if data != [] {
      var n := |data| - 1;
      var before := EncryptedAll(k, data[..n]);
      var last := Encrypted(before.0, data[n]);
      var out := EncryptedAll(k, data).1;
      StreamRoundTrip(k, data[..n]);
      ByteRoundTrip(before.0, data[n]);
      assert out == before.1 + [last.1];
      assert out[..n] == before.1 && out[n] == last.1;
      assert DecryptedAll(k, out).1 == data[..n] + [data[n]] == data;
    }
  }

  lemma StreamInjective(k: Key, a: seq<Byte>, b: seq<Byte>)
    requires EncryptedAll(k, a).1 == EncryptedAll(k, b).1
    ensures a == b
  {
    StreamRoundTrip(k, a);
    StreamRoundTrip(k, b);
  }

  lemma {:induction false} StreamPermutes(k: Key, data: seq<Byte>)
    requires Permutation(k)
    ensures Permutation(EncryptedAll(k, data).0)
  {
    hide Encrypted, Permutation;
    if data != [] {
      StreamPermutes(k, data[..|data| - 1]);
      EncryptedPermutes(EncryptedAll(k, data[..|data| - 1]).0, data[|data| - 1]);
    }
  }

  // ---------- The key schedule

  /** The first number of the form 2^n - 1, from mask on, that is not below cnt. */
  function MaskFor(mask: nat, cnt: nat): (r: nat)
    requires mask > 0
    ensures r >= cnt && r >= mask
    decreases cnt - mask
  {
    if mask < cnt then MaskFor(2 * mask + 1, cnt) else mask
  }

  datatype Pick = Pick(t: nat, n1: nat, n2: nat)

  /** The rounds of func5 from the i-th on; the twelfth always ends them. */
  function Picked(k: Key, cnt: nat, mask: nat, id: seq<Byte>, n1: nat, n2: nat, i: nat): (r: Pick)
    requires 0 < cnt && n2 < |id| && i < 12
    ensures r.t <= cnt && r.n2 < |id|
    decreases 12 - i
  {
    var v := Add(k[n1 % 256], id[n2]);
    var next2 := if n2 + 1 >= |id| then 0 else n2 + 1;
    var next1 := if n2 + 1 >= |id| then v + |id| else v;
    var low := next1 % (mask + 1);
    var t := if i + 1 > 11 then low % cnt else low;
    if t > cnt then Picked(k, cnt, mask, id, next1, next2, i + 1) else Pick(t, next1, next2)
  }

  function PickUpTo(k: Key, cnt: nat, id: seq<Byte>, n1: nat, n2: nat): (r: Pick)
    requires n2 < |id|
    ensures r.t <= cnt && r.n2 < |id|
  {
    if cnt == 0 then Pick(0, n1, n2) else Picked(k, cnt, MaskFor(1, cnt), id, n1, n2, 0)
  }

  function Swapped(k: Key, i: nat, j: nat): Key
    requires i < 256 && j < 256
  {
    k[i := k[j]][j := k[i]]
  }

  /** The swaps of func4 from position i down. */
  function Shuffled(k: Key, id: seq<Byte>, i: int, n1: nat, n2: nat): (Key, nat)
    requires -1 <= i < 256 && n2 < |id|
    decreases i + 1
  {
    if i < 0 then (k, n1)
    else
      var p := PickUpTo(k, i, id, n1, n2);
      Shuffled(Swapped(k, i, p.t), id, i - 1, p.n1, p.n2)
  }

  function Registered(k: Key, n1: nat): Key {
    k[256 := k[1]][257 := k[3]][258 := k[5]][259 := k[7]][260 := k[n1 % 256]]
  }

  function CountUp(n: nat): (r: seq<Byte>)
    requires n <= 256
    ensures |r| == n && forall i :: 0 <= i < n ==> r[i] == i
  {
    if n == 0 then [] else CountUp(n - 1) + [n - 1]
  }

  const FRESH: Key := CountUp(256) + [0, 0, 0, 0, 0]

  /** func4 on a key whose registers are still zero. */
  function Schedule(id: seq<Byte>): Key
    requires |id| == 8
  {
    var s := Shuffled(FRESH, id, 255, 0, 0);
    Registered(s.0, s.1)
  }

  lemma {:induction false} ShuffledPermutes(k: Key, id: seq<Byte>, i: int, n1: nat, n2: nat)
    requires -1 <= i < 256 && n2 < |id| && Permutation(k)
    ensures Permutation(Shuffled(k, id, i, n1, n2).0)
    decreases i + 1
  {
    hide Permutation, PickUpTo;
    if i >= 0 {
      var p := PickUpTo(k, i, id, n1, n2);
      SwapPermutes(k, i, p.t);
      ShuffledPermutes(Swapped(k, i, p.t), id, i - 1, p.n1, p.n2);
    }
  }

  lemma RegisteredPermutes(k: Key, n1: nat)
    requires Permutation(k)
    ensures Permutation(Registered(k, n1))
  {
    hide Permutation;
    RegistersApart(k, 256, k[1]);
    var k1 := k[256 := k[1]];
    RegistersApart(k1, 257, k[3]);
    var k2 := k1[257 := k[3]];
    RegistersApart(k2, 258, k[5]);
    var k3 := k2[258 := k[5]];
    RegistersApart(k3, 259, k[7]);
    RegistersApart(k3[259 := k[7]], 260, k[n1 % 256]);
  }

  lemma SchedulePermutes(id: seq<Byte>)
    requires |id| == 8
    ensures Permutation(Schedule(id))
  {
    hide Shuffled, Registered;
    forall v: Byte
      ensures Occurs(FRESH, v)
    {
      assert FRESH[v] == v;
    }
    ShuffledPermutes(FRESH, id, 255, 0, 0);
    RegisteredPermutes(Shuffled(FRESH, id, 255, 0, 0).0, Shuffled(FRESH, id, 255, 0, 0).1);
  }

  // ---------- What the schedule picks

  /** The mask is the least number of the form 2^n - 1, n > 0, that is not below cnt. */
  lemma {:induction false} MaskIsLeast(n: nat, cnt: nat) returns (m: nat)
    requires n > 0
    ensures m >= n && MaskFor(Pow2(n) - 1, cnt) == Pow2(m) - 1 >= cnt && (m == n || Pow2(m - 1) - 1 < cnt)
    decreases cnt - Pow2(n)
  {
    m := n;
    assert Pow2(n) == 2 * Pow2(n - 1);
    if Pow2(n) - 1 < cnt {
      m := MaskIsLeast(n + 1, cnt);
    }
  }

  /** The counters after so many rounds: the first picks up key and challenge bytes, the second goes round the challenge. */
  ghost function Walk(k: Key, id: seq<Byte>, n1: nat, n2: nat, rounds: nat): (r: (nat, nat))
    requires |id| == 8 && n2 < 8
    ensures r.1 == (n2 + rounds) % 8
  {
    if rounds == 0 then (n1, n2)
    else
      var w := Walk(k, id, n1, n2, rounds - 1);
      var sum := (k[w.0 % 256] as int) + (id[w.1] as int);
      (sum % 256 + (if w.1 == 7 then 8 else 0), (w.1 + 1) % 8)
  }

  /** Position picked after so many rounds, which is taken if it is not above cnt. */
  ghost function Drawn(k: Key, cnt: nat, mask: nat, id: seq<Byte>, n1: nat, n2: nat, rounds: nat): nat
    requires 0 < cnt && |id| == 8 && n2 < 8
  {
    var low := Walk(k, id, n1, n2, rounds).0 % (mask + 1);
    if rounds >= 12 then low % cnt else low
  }

  /** The result comes from the first round, of at most twelve, that draws a position not above cnt. */
  lemma WalkOne(k: Key, id: seq<Byte>, n1: nat, n2: nat, i: nat)
    requires |id| == 8 && n2 < 8
    ensures var w, next := Walk(k, id, n1, n2, i), Walk(k, id, n1, n2, i + 1);
            var v := Add(k[w.0 % 256], id[w.1]);
            next == (if w.1 == 7 then v + 8 else v, if w.1 == 7 then 0 else w.1 + 1)
  {
    var w := Walk(k, id, n1, n2, i);
    assert Add(k[w.0 % 256], id[w.1]) == ((k[w.0 % 256] as int) + (id[w.1] as int)) % 256;
  }

  lemma PickedRound(k: Key, cnt: nat, mask: nat, id: seq<Byte>, n1: nat, n2: nat, i: nat)
    requires 0 < cnt && |id| == 8 && n2 < 8 && i < 12
    ensures var w, next, drawn := Walk(k, id, n1, n2, i), Walk(k, id, n1, n2, i + 1), Drawn(k, cnt, mask, id, n1, n2, i + 1);
            && (drawn > cnt ==> i + 1 < 12)
            && Picked(k, cnt, mask, id, w.0, w.1, i)
               == if drawn > cnt then Picked(k, cnt, mask, id, next.0, next.1, i + 1) else Pick(drawn, next.0, next.1)
  {
    hide Walk, Add;
    WalkOne(k, id, n1, n2, i);
  }

  lemma {:induction false} PickedFirst(k: Key, cnt: nat, mask: nat, id: seq<Byte>, n1: nat, n2: nat, i: nat) returns (j: nat)
    requires 0 < cnt && |id| == 8 && n2 < 8 && i < 12
    ensures i < j <= 12
    ensures var w := Walk(k, id, n1, n2, i);
            Picked(k, cnt, mask, id, w.0, w.1, i)
            == Pick(Drawn(k, cnt, mask, id, n1, n2, j), Walk(k, id, n1, n2, j).0, Walk(k, id, n1, n2, j).1)
    ensures Drawn(k, cnt, mask, id, n1, n2, j) <= cnt
    ensures forall h :: i < h < j ==> Drawn(k, cnt, mask, id, n1, n2, h) > cnt
    decreases 12 - i
  {
    hide Picked, Walk, Drawn;
    PickedRound(k, cnt, mask, id, n1, n2, i);
    j := i + 1;
    if Drawn(k, cnt, mask, id, n1, n2, j) > cnt {
      j := PickedFirst(k, cnt, mask, id, n1, n2, i + 1);
    }
  }

  /** The registers are five bytes of the shuffled key, which stays as it is. */
  lemma RegistersAre(k: Key, n1: nat)
    ensures Registered(k, n1) == k[..256] + [k[1], k[3], k[5], k[7], k[n1 % 256]]
  {
  }

  // ---------- The header, and the key both ends derive from it

  /** enctypexFuncX: the header bytes mixed into the challenge. */
  function MixedAt(key: seq<Byte>, challenge: seq<Byte>, b: Byte, i: nat): seq<Byte>
    requires key != [] && |challenge| == 8
  {
    var at := (key[i % |key|] * i) % 8;
    challenge[at := Xor(challenge[at], Xor(challenge[i % 8], b))]
  }

  function Mixed(key: seq<Byte>, challenge: seq<Byte>, data: seq<Byte>): (r: seq<Byte>)
    requires key != [] && |challenge| == 8
    ensures |r| == 8
  {
    if data == [] then challenge
    else MixedAt(key, Mixed(key, challenge, data[..|data| - 1]), data[|data| - 1], |data| - 1)
  }

  /** The first header byte replaces byte 0 of the challenge. */
  lemma MixedFirst(key: seq<Byte>, challenge: seq<Byte>, b: Byte)
    requires key != [] && |challenge| == 8
    ensures Mixed(key, challenge, [b]) == challenge[0 := b]
  {
    hide Xor, MixedAt;
    assert [b][..0] == [] && Mixed(key, challenge, []) == challenge;
    assert key[0 % |key|] * 0 == 0;
    MixedPlace(key, challenge, b, 0);
    XorCancel(challenge[0], b);
  }

  /** The byte at i is added, with one of the challenge, at the place the key and i say. */
  lemma MixedOne(key: seq<Byte>, challenge: seq<Byte>, data: seq<Byte>, b: Byte)
    requires key != [] && |challenge| == 8
    ensures var i, before, after := |data|, Mixed(key, challenge, data), Mixed(key, challenge, data + [b]);
            forall j :: 0 <= j < 8 ==>
              after[j] == if j == (key[i % |key|] * i) % 8 then Xor(before[j], Xor(before[i % 8], b)) else before[j]
  {
    hide Xor, MixedAt;
    assert (data + [b])[..|data|] == data;
    assert Mixed(key, challenge, data + [b]) == MixedAt(key, Mixed(key, challenge, data), b, |data|);
    MixedPlace(key, Mixed(key, challenge, data), b, |data|);
  }

  lemma MixedPlace(key: seq<Byte>, challenge: seq<Byte>, b: Byte, i: nat)
    requires key != [] && |challenge| == 8
    ensures var after := MixedAt(key, challenge, b, i);
            |after| == 8 && forall j :: 0 <= j < 8 ==>
              after[j] == if j == (key[i % |key|] * i) % 8 then Xor(challenge[j], Xor(challenge[i % 8], b)) else challenge[j]
  {
    hide Xor;
  }

  function HeaderLength(data: seq<Byte>): Byte
    requires data != []
  {
    Add(Xor(data[0], 0xec), 2)
  }

  function DataStart(data: seq<Byte>): Byte
    requires data != [] && HeaderFits(data)
  {
    Xor(data[Add(HeaderLength(data), 255)], 0xea)
  }

  /** What the indices of initEncrypt need to be in range; they are computed in bytes. */
  predicate HeaderFits(data: seq<Byte>)
    requires data != []
  {
    Add(HeaderLength(data), 255) < |data|
  }

  predicate PayloadFits(data: seq<Byte>) {
    data != [] && HeaderFits(data) && HeaderLength(data) + DataStart(data) <= |data| && HeaderLength(data) + DataStart(data) < 256
  }

  /** initEncrypt: the key and where the payload starts. */
  function InitKey(key: seq<Byte>, challenge: seq<Byte>, data: seq<Byte>): Key
    requires key != [] && |challenge| == 8 && PayloadFits(data)
  {
    Schedule(Mixed(key, challenge, data[HeaderLength(data)..HeaderLength(data) + DataStart(data)]))
  }

  function Noise(now: int, i: nat): int {
    if i == 0 then now else Noise(now, i - 1) * 0x343FD + 0x269EC3
  }

  function HeaderByte(key: seq<Byte>, challenge: seq<Byte>, now: int, i: nat): Byte
    requires key != [] && challenge != []
  {
    if i == 0 then Xor(5, 0xec)
    else if i == 1 || i == 2 then 0
    else if i == 6 then Xor(13, 0xea)
    else Xor(Xor(Noise(now, i + 1) % 256, key[i % |key|]), challenge[i % |challenge|])
  }

  ghost predicate IsHeader(h: seq<Byte>, key: seq<Byte>, challenge: seq<Byte>, now: int)
    requires key != [] && challenge != []
  {
    |h| == 20 && forall i :: 0 <= i < 20 ==> h[i] == HeaderByte(key, challenge, now, i)
  }

  lemma HeaderParts(h: seq<Byte>, key: seq<Byte>, challenge: seq<Byte>, now: int, data: seq<Byte>)
    requires key != [] && challenge != [] && IsHeader(h, key, challenge, now)
    ensures PayloadFits(h + data) && HeaderLength(h + data) == 7 && DataStart(h + data) == 13
    ensures (h + data)[7..20] == h[7..20]
  {
    hide Xor;
    XorCancel(0xec, 5);
    XorCancel(0xea, 13);
    assert (h + data)[0] == h[0] && (h + data)[6] == h[6];
  }

  /** What EncryptTypeX sends. */
  ghost predicate IsMessage(out: seq<Byte>, key: seq<Byte>, challenge: seq<Byte>, data: seq<Byte>, now: int)
    requires key != [] && |challenge| == 8
  {
    && |out| == 20 + |data| && IsHeader(out[..20], key, challenge, now)
    && out[20..] == EncryptedAll(Schedule(Mixed(key, challenge, out[7..20])), data).1
  }

  /** With the original challenge a receiver finds the payload, the sender's first key and the data. */
  lemma MessageRoundTrip(out: seq<Byte>, key: seq<Byte>, challenge: seq<Byte>, data: seq<Byte>, now: int)
    requires key != [] && |challenge| == 8 && IsMessage(out, key, challenge, data, now)
    ensures PayloadFits(out) && HeaderLength(out) + DataStart(out) == 20
    ensures DecryptedAll(InitKey(key, challenge, out), out[20..]).1 == data
    ensures Permutation(InitKey(key, challenge, out))
  {
    hide Schedule, Mixed, EncryptedAll, DecryptedAll;
    var h := out[..20];
    assert h + out[20..] == out;
    HeaderParts(h, key, challenge, now, out[20..]);
    StreamRoundTrip(Schedule(Mixed(key, challenge, out[7..20])), data);
    SchedulePermutes(Mixed(key, challenge, out[7..20]));
  }

  // ---------- The code, on arrays

  method FindMask(cnt: nat) returns (mask: nat)
    ensures mask == MaskFor(1, cnt)
  {
    mask := 1;
    if cnt > 1 {
      mask := 3;
      while mask < cnt
        invariant mask > 0 && MaskFor(mask, cnt) == MaskFor(1, cnt)
        decreases cnt - mask
      {
        mask := mask * 2 + 1;
      }
    }
  }

  method Func5(encxkey: array<Byte>, cnt: nat, id: array<Byte>, n1: nat, n2: nat) returns (tmp: nat, m1: nat, m2: nat)
    requires encxkey.Length == 261 && id.Length == 8 && n2 < 8
    ensures PickUpTo(encxkey[..], cnt, id[..], n1, n2) == Pick(tmp, m1, m2)
  {
    hide MaskFor, Add;
    m1, m2 := n1, n2;
    if cnt == 0 {
      return 0, n1, n2;
    }
    var mask := FindMask(cnt);
    ghost var k: Key, ids := encxkey[..], id[..];
    var i := 0;
    tmp := cnt + 1;
    while tmp > cnt
      invariant i <= 12 && m2 < 8 && (i == 12 ==> tmp <= cnt)
      invariant Picked(k, cnt, mask, ids, n1, n2, 0) == if tmp > cnt then Picked(k, cnt, mask, ids, m1, m2, i) else Pick(tmp, m1, m2)
      decreases tmp > cnt, 12 - i
    {
      assert k[m1 % 256] == encxkey[m1 % 256] && ids[m2] == id[m2];
      m1 := Add(encxkey[m1 % 256], id[m2]);
      m2 := m2 + 1;
      if m2 >= id.Length {
        m2 := 0;
        m1 := m1 + id.Length;
      }
      tmp := m1 % (mask + 1);
      i := i + 1;
      if i > 11 {
        tmp := tmp % cnt;
      }
    }
  }

  method Func4(encxkey: array<Byte>, challenge: array<Byte>)
    requires encxkey.Length == 261 && challenge.Length == 8 && challenge != encxkey
    requires forall r :: 256 <= r < 261 ==> encxkey[r] == 0
    modifies encxkey
    ensures encxkey[..] == Schedule(challenge[..])
  {
    hide Registered, PickUpTo, Swapped;
    for i := 0 to 256
      invariant forall j :: 0 <= j < i ==> encxkey[j] == j
      invariant forall r :: 256 <= r < 261 ==> encxkey[r] == 0
    {
      encxkey[i] := i;
    }
    assert encxkey[..] == FRESH;
    var n1, n2 := 0, 0;
    var i := 255;
    while i != -1
      invariant -1 <= i < 256 && n2 < 8
      invariant Shuffled(encxkey[..], challenge[..], i, n1, n2) == Shuffled(FRESH, challenge[..], 255, 0, 0)
      decreases i + 1
    {
      ghost var k: Key := encxkey[..];
      var t1, m1, m2 := Func5(encxkey, i, challenge, n1, n2);
      n1, n2 := m1, m2;
      SwapInPlace(encxkey, i, t1);
      i := i - 1;
    }
    SetRegisters(encxkey, n1);
  }

  method SwapInPlace(encxkey: array<Byte>, i: nat, t1: nat)
    requires encxkey.Length == 261 && i < 256 && t1 < 256
    modifies encxkey
    ensures encxkey[..] == Swapped(old(encxkey[..]), i, t1)
  {
    var t2 := encxkey[i];
    encxkey[i] := encxkey[t1];
    encxkey[t1] := t2;
  }

  method SetRegisters(encxkey: array<Byte>, n1: nat)
    requires encxkey.Length == 261
    modifies encxkey
    ensures encxkey[..] == Registered(old(encxkey[..]), n1)
  {
    encxkey[256] := encxkey[1];
    encxkey[257] := encxkey[3];
    encxkey[258] := encxkey[5];
    encxkey[259] := encxkey[7];
    encxkey[260] := encxkey[n1 % 256];
  }

  method EnctypexFuncX(encxkey: array<Byte>, key: seq<Byte>, challenge: array<Byte>, data: seq<Byte>)
    requires encxkey.Length == 261 && challenge.Length == 8 && challenge != encxkey && key != []
    requires forall r :: 256 <= r < 261 ==> encxkey[r] == 0
    modifies encxkey, challenge
    ensures challenge[..] == Mixed(key, old(challenge[..]), data)
    ensures encxkey[..] == Schedule(Mixed(key, old(challenge[..]), data))
  {
    hide Xor;
    for i := 0 to |data|
      invariant challenge[..] == Mixed(key, old(challenge[..]), data[..i])
      invariant unchanged(encxkey)
    {
      assert data[..i + 1][..i] == data[..i];
      var at := (key[i % |key|] * i) % 8;
      challenge[at] := Xor(challenge[at], Xor(challenge[i % 8], data[i]));
    }
    assert data[..|data|] == data;
    Func4(encxkey, challenge);
  }

  /** The slice of data that is the payload starts at the result. */
  method InitEncrypt(encxkey: array<Byte>, key: seq<Byte>, validate: array<Byte>, data: array<Byte>) returns (start: nat)
    requires encxkey.Length == 261 && validate.Length == 8 && validate != encxkey && key != []
    requires data != encxkey && data != validate && PayloadFits(data[..])
    requires forall r :: 256 <= r < 261 ==> encxkey[r] == 0
    modifies encxkey, validate
    ensures encxkey[..] == InitKey(key, old(validate[..]), data[..])
    ensures start == HeaderLength(data[..]) + DataStart(data[..])
  {
    hide Schedule, Mixed, Xor;
    var headerLen := Add(Xor(data[0], 0xec), 2);
    var dataStart := Xor(data[Add(headerLen, 255)], 0xea);
    assert headerLen == HeaderLength(data[..]) && dataStart == DataStart(data[..]);
    assert data[headerLen..headerLen + dataStart] == data[..][headerLen..headerLen + dataStart];
    EnctypexFuncX(encxkey, key, validate, data[headerLen..headerLen + dataStart]);
    start := headerLen + dataStart;
  }

  /** The register moves in the order of the source. */
  method Func7e(encxkey: array<Byte>, d: Byte) returns (c: Byte)
    requires encxkey.Length == 261
    modifies encxkey
    ensures (encxkey[..], c) == Encrypted(old(encxkey[..]), d)
  {
    hide Xor;
    Move(encxkey);
    ghost var m: Key := encxkey[..];
    assert m == Moved(old(encxkey[..]));
    var a, b := encxkey[258], encxkey[257];
    c := encxkey[encxkey[259]];
    b := encxkey[b];
    a := encxkey[a];
    c := Add(b, c);
    b := encxkey[260];
    b := encxkey[b];
    c := Add(b, c);
    b := encxkey[c];
    c := encxkey[256];
    c := encxkey[c];
    a := Add(a, c);
    c := encxkey[b];
    b := encxkey[a];
    assert c == Mask(m).0 && b == Mask(m).1;
    c := Xor(c, Xor(b, d));
    encxkey[260] := c;
    encxkey[259] := d;
  }

  method Move(encxkey: array<Byte>)
    requires encxkey.Length == 261
    modifies encxkey
    ensures encxkey[..] == Moved(old(encxkey[..]))
  {
    var a := encxkey[256];
    var b := encxkey[257];
    var c := encxkey[a];
    encxkey[256] := Add(a, 1);
    encxkey[257] := Add(b, c);
    ghost var k0: Key := encxkey[..];

    a := encxkey[260];
    b := encxkey[257];
    b := encxkey[b];
    c := encxkey[a];
    encxkey[a] := b;
    ghost var k1: Key := encxkey[..];
    assert k1 == k0[k0[260] := k0[k0[257]]] && c == k0[k0[260]];

    a := encxkey[259];
    b := encxkey[257];
    a := encxkey[a];
    encxkey[b] := a;
    ghost var k2: Key := encxkey[..];
    assert k2 == k1[k1[257] := k1[k1[259]]];

    a := encxkey[256];
    b := encxkey[259];
    a := encxkey[a];
    encxkey[b] := a;
    ghost var k3: Key := encxkey[..];
    assert k3 == k2[k2[259] := k2[k2[256]]];

    a := encxkey[256];
    encxkey[a] := c;
    ghost var k4: Key := encxkey[..];
    assert k4 == k3[k3[256] := c];

    b := encxkey[258];
    a := encxkey[c];
    b := Add(a, b);
    encxkey[258] := b;
  }

  lemma OneByteMore(k: Key, plain: seq<Byte>, n: nat)
    requires n < |plain|
    ensures EncryptedAll(k, plain[..n + 1]) ==
              (Encrypted(EncryptedAll(k, plain[..n]).0, plain[n]).0,
               EncryptedAll(k, plain[..n]).1 + [Encrypted(EncryptedAll(k, plain[..n]).0, plain[n]).1])
  {
    hide Encrypted;
    assert plain[..n + 1][..n] == plain[..n];
  }

  /** Encrypts the bytes of data from the given position on, in place. */
  method Func6e(encxkey: array<Byte>, data: array<Byte>, start: nat)
    requires encxkey.Length == 261 && data != encxkey && start <= data.Length
    modifies encxkey, data
    ensures data[..start] == old(data[..start])
    ensures (encxkey[..], data[start..]) == EncryptedAll(old(encxkey[..]), old(data[start..]))
  {
    hide Encrypted, EncryptedAll;
    ghost var k: Key, plain := encxkey[..], data[start..];
    NoBytes(k);
    assert data[start..start] == [] && plain[..0] == [];
    for i := start to data.Length
      invariant data[..start] == old(data[..start])
      invariant forall j :: i <= j < data.Length ==> data[j] == plain[j - start]
      invariant (encxkey[..], data[start..i]) == EncryptedAll(k, plain[..i - start])
    {
      ghost var done := data[start..i];
      OneByteMore(k, plain, i - start);
      data[i] := Func7e(encxkey, data[i]);
      assert data[start..i + 1] == done + [data[i]];
    }
    assert plain[..data.Length - start] == plain && data[start..data.Length] == data[start..];
  }

  lemma NoBytes(k: Key)
    ensures EncryptedAll(k, []) == (k, [])
  {
  }

  /** The clock enters as a number; the challenge is mixed with the header in place, as in the source. */
  method EncryptTypeX(key: seq<Byte>, challenge: array<Byte>, data: seq<Byte>, now: int) returns (out: array<Byte>)
    requires key != [] && challenge.Length == 8
    modifies challenge
    ensures fresh(out) && IsMessage(out[..], key, old(challenge[..]), data, now)
  {
    hide Schedule, Mixed, EncryptedAll, Xor;
    ghost var original := challenge[..];
    out := new Byte[20 + |data|](i requires 0 <= i < 20 + |data| => if i < 20 then 0 else data[i - 20]);
    assert out[20..] == data;
    FillHeader(out, key, challenge, now);
    assert out[20..] == data;
    ghost var h := out[..20];
    assert out[..] == h + data;
    HeaderParts(h, key, original, now, data);
    var encxkey := new Byte[261](i => 0);
    var start := InitEncrypt(encxkey, key, challenge, out);
    assert start == 20 && encxkey[..] == Schedule(Mixed(key, original, h[7..20]));
    Func6e(encxkey, out, start);
    assert out[..][..20] == out[..20] == h && out[..][20..] == out[20..];
    assert out[..][7..20] == out[..20][7..20];
  }

  method FillHeader(out: array<Byte>, key: seq<Byte>, challenge: array<Byte>, now: int)
    requires out.Length >= 20 && key != [] && challenge.Length == 8 && out != challenge
    modifies out
    ensures IsHeader(out[..20], key, challenge[..], now) && out[20..] == old(out[20..])
  {
    hide Xor;
    var rnd := now;
    for i := 0 to 20
      invariant rnd == Noise(now, i) && out[20..] == old(out[20..])
      invariant forall j :: 0 <= j < i ==> out[j] == Xor(Xor(Noise(now, j + 1) % 256, key[j % |key|]), challenge[j % challenge.Length])
    {
      rnd := rnd * 0x343FD + 0x269EC3;
      out[i] := Xor(Xor(rnd % 256, key[i % |key|]), challenge[i % challenge.Length]);
    }
    var headerLen: Byte := 7;
    out[0] := Xor(headerLen - 2, 0xec);
    out[1] := 0;
    out[2] := 0;
    out[headerLen - 1] := Xor(20 - headerLen, 0xea);
  }
}
