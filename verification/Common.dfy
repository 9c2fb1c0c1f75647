/** Result types and sequence facts shared by the whole model. */
module Common {
  datatype Option<+T> = None | Some(value: T)

  /** The exceptions the modelled code raises, one constructor each. */
  datatype Error =
    | StructError      // struct.pack on a value that does not fit its field
    | ValueError
    | KeyError
    | NoCapacityError
    | RuntimeError

  datatype Result<+T> = Ok(value: T) | Err(error: Error)

  /** How long a cache with these settings may go on answering from one entry. */
  function Lifetime(enabled: bool, ttl: real): real {
    if enabled && ttl >= 0.0 then ttl else 0.0
  }

  lemma ConsAppend<T>(s: seq<T>, t: seq<T>)
    requires s != []
    ensures [s[0]] + (s[1..] + t) == s + t
  {
  }

  lemma AppendAssoc<T>(a: seq<T>, b: seq<T>, c: seq<T>)
    ensures a + b + c == a + (b + c)
  {
  }

  lemma AppendParts<T>(a: seq<T>, b: seq<T>)
    ensures (a + b)[..|a|] == a && (a + b)[|a|..] == b
  {
  }

  lemma SplitAt<T>(s: seq<T>, n: nat)
    requires n <= |s|
    ensures s == s[..n] + s[n..]
  {
  }

  lemma DropTwice<T>(s: seq<T>, m: nat, n: nat)
    requires m + n <= |s|
    ensures s[m..][n..] == s[m + n..]
  {
  }

  lemma SplitPrefix<T>(a: seq<T>, b: seq<T>, s: seq<T>)
    requires a + b <= s
    ensures a <= s && b <= s[|a|..]
    ensures s == a + s[|a|..]
    ensures s[|a|..][|b|..] == s[|a + b|..]
  {
    assert (a + b)[|a|..] == b;
  }

  lemma CutAppend<T>(a: seq<T>, b: seq<T>, cut: nat)
    requires |a| <= cut <= |a| + |b|
    ensures (a + b)[..cut] == a + b[..cut - |a|]
  {
  }

  /** A cut behind the first part leaves that part whole. */
  lemma CutBehind<T>(a: seq<T>, b: seq<T>, cut: nat)
    requires |a| <= cut <= |a| + |b|
    ensures (a + b)[..cut][..|a|] == a && (a + b)[..cut][|a|..] == b[..cut - |a|]
  {
    CutAppend(a, b, cut);
    AppendParts(a, b[..cut - |a|]);
  }

  /** `a` is what is left of `b` after crossing out some of it. */
  ghost predicate IsSubsequence<T>(a: seq<T>, b: seq<T>) {
    if a == [] then true
    else if b == [] then false
    else
      || (a[|a| - 1] == b[|b| - 1] && IsSubsequence(a[..|a| - 1], b[..|b| - 1]))
      || IsSubsequence(a, b[..|b| - 1])
  }

  lemma SubsequenceSkips<T>(a: seq<T>, b: seq<T>, x: T)
    requires IsSubsequence(a, b)
    ensures IsSubsequence(a, b + [x])
  {
    assert (b + [x])[..|b|] == b;
  }

  lemma SubsequenceTakes<T>(a: seq<T>, b: seq<T>, x: T)
    requires IsSubsequence(a, b)
    ensures IsSubsequence(a + [x], b + [x])
  {
    assert (b + [x])[..|b|] == b && (a + [x])[..|a|] == a;
  }

  /** Crossing out one more element anywhere. */
  lemma {:induction false} SubsequenceDrops<T>(p: seq<T>, x: T, q: seq<T>, b: seq<T>)
    requires IsSubsequence(p + [x] + q, b)
    ensures IsSubsequence(p + q, b)
    decreases |b|
  {
    var a := p + [x] + q;
    if p + q != [] {
      var b' := b[..|b| - 1];
      if a[|a| - 1] == b[|b| - 1] && IsSubsequence(a[..|a| - 1], b') {
        assert b == b' + [a[|a| - 1]];
        if q == [] {
          assert a[..|a| - 1] == p && p + q == p;
          SubsequenceSkips(p, b', x);
        } else {
          var q' := q[..|q| - 1];
          assert a[..|a| - 1] == p + [x] + q';
          SubsequenceDrops(p, x, q', b');
          SubsequenceTakes(p + q', b', q[|q| - 1]);
          assert p + q == p + q' + [q[|q| - 1]];
        }
      } else {
        SubsequenceDrops(p, x, q, b');
        SubsequenceSkips(p + q, b', b[|b| - 1]);
        assert b == b' + [b[|b| - 1]];
      }
    }
  }

  /** Crossing out a whole stretch. */
  lemma {:induction false} SubsequenceDropsFront<T>(p: seq<T>, q: seq<T>, n: nat, b: seq<T>)
    requires n <= |q| && IsSubsequence(p + q, b)
    ensures IsSubsequence(p + q[n..], b)
    decreases n
  {
    if n == 0 {
      assert q[0..] == q;
    } else {
      assert p + q == p + [q[0]] + q[1..];
      SubsequenceDrops(p, q[0], q[1..], b);
      SubsequenceDropsFront(p, q[1..], n - 1, b);
      DropTwice(q, 1, n - 1);
    }
  }

  lemma {:induction false} SubsequenceIsShorter<T>(a: seq<T>, b: seq<T>)
    requires IsSubsequence(a, b)
    ensures |a| <= |b| && (|a| == |b| ==> a == b)
    decreases |b|
  {
    if a != [] {
      var a', b' := a[..|a| - 1], b[..|b| - 1];
      if a[|a| - 1] == b[|b| - 1] && IsSubsequence(a', b') {
        SubsequenceIsShorter(a', b');
        assert a == a' + [a[|a| - 1]] && b == b' + [b[|b| - 1]];
      } else {
        SubsequenceIsShorter(a, b');
      }
    }
  }
}

/** Bytes, and the `struct` formats the wire protocol uses. */
module Bytes {
  type Byte = x: int | 0 <= x < 0x100
  type U16 = x: int | 0 <= x < 0x1_0000
  type U32 = x: int | 0 <= x < 0x1_0000_0000
  type ByteString = seq<Byte>

  /** The format ">I". */
  function Pack32(x: U32): (b: ByteString)
    ensures |b| == 4
  {
    [x / 0x100_0000, x / 0x1_0000 % 0x100, x / 0x100 % 0x100, x % 0x100]
  }

  function Unpack32(b: ByteString): U32
    requires |b| == 4
  {
    (b[0] as int) * 0x100_0000 + (b[1] as int) * 0x1_0000 + (b[2] as int) * 0x100 + b[3] as int
  }

  /** The format ">H". */
  function Pack16(x: U16): (b: ByteString)
    ensures |b| == 2
  {
    [x / 0x100, x % 0x100]
  }

  function Unpack16(b: ByteString): U16
    requires |b| == 2
  {
    (b[0] as int) * 0x100 + b[1] as int
  }

  lemma UnpackPack32(x: U32)
    ensures Unpack32(Pack32(x)) == x
  {
    var q := x / 0x100;
    assert x / 0x1_0000 == q / 0x100 && x / 0x100_0000 == q / 0x100 / 0x100;
  }

  lemma PackUnpack32(b: ByteString)
    requires |b| == 4
    ensures Pack32(Unpack32(b)) == b
  {
    var x := Unpack32(b);
    assert x / 0x100 == (b[0] as int) * 0x1_0000 + (b[1] as int) * 0x100 + b[2] as int;
    assert x / 0x1_0000 == (b[0] as int) * 0x100 + b[1] as int;
  }

  lemma UnpackPack16(x: U16)
    ensures Unpack16(Pack16(x)) == x
  {
  }

  lemma PackUnpack16(b: ByteString)
    requires |b| == 2
    ensures Pack16(Unpack16(b)) == b
  {
  }

  /** Big-endian: the first byte weighs most. */
  lemma BigEndian(x: U32, y: U16)
    ensures var b := Pack32(x); (b[0] as int) * 0x100_0000 + (b[1] as int) * 0x1_0000 + (b[2] as int) * 0x100 + b[3] as int == x
    ensures var b := Pack16(y); (b[0] as int) * 0x100 + b[1] as int == y
  {
    UnpackPack32(x);
  }

  /** The formats ">II", ">III", ... */
  function Pack(words: seq<U32>): (b: ByteString)
    ensures |b| == 4 * |words|
  {
    if words == [] then [] else Pack32(words[0]) + Pack(words[1..])
  }

  function Unpack(b: ByteString): (words: seq<U32>)
    requires |b| % 4 == 0
    ensures |b| == 4 * |words|
  {
    if b == [] then [] else [Unpack32(b[..4])] + Unpack(b[4..])
  }

  lemma {:induction false} UnpackPack(words: seq<U32>)
    ensures Unpack(Pack(words)) == words
  {
    if words != [] {
      UnpackPack32(words[0]);
      UnpackPack(words[1..]);
      var b := Pack(words);
      assert b[..4] == Pack32(words[0]) && b[4..] == Pack(words[1..]);
      assert [words[0]] + words[1..] == words;
    }
  }

  lemma {:induction false} PackUnpack(b: ByteString)
    requires |b| % 4 == 0
    ensures Pack(Unpack(b)) == b
  {
    if b != [] {
      PackUnpack32(b[..4]);
      PackUnpack(b[4..]);
      var w := Unpack(b);
      assert w[1..] == Unpack(b[4..]);
      assert b[..4] + b[4..] == b;
    }
  }

  /** The i-th word of a body. */
  function WordAt(b: ByteString, i: nat): U32
    requires 4 * i + 4 <= |b|
  {
    Unpack32(b[4 * i..4 * i + 4])
  }

  /** Words are packed one behind the other. */
  lemma {:induction false} PackedWordAt(words: seq<U32>, rest: ByteString, i: nat)
    requires i < |words|
    ensures WordAt(Pack(words) + rest, i) == words[i]
    decreases i
  {
    var b := Pack(words) + rest;
    if i == 0 {
      assert b[0..4] == Pack32(words[0]);
      UnpackPack32(words[0]);
    } else {
      PackedWordAt(words[1..], rest, i - 1);
      assert b == Pack32(words[0]) + (Pack(words[1..]) + rest);
      assert b[4 * i..4 * i + 4] == (Pack(words[1..]) + rest)[4 * (i - 1)..4 * (i - 1) + 4];
    }
  }
}
