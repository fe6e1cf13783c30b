/** Bytes, 32-bit words and the small sequence vocabulary shared by the log modules. */
module Bytes {

  type Byte = b: int | 0 <= b < 0x100
  type U32 = n: int | 0 <= n < 0x1_0000_0000

  datatype Option<+T> = None | Some(value: T)

  /** No element occurs twice. */
  predicate Distinct<T(==)>(s: seq<T>) { forall i, j :: 0 <= i < j < |s| ==> s[i] != s[j] }

  /** Big-endian encoding of a 32-bit word, as `put_u32` writes it. */
  function PutU32(n: U32): (r: seq<Byte>)
    ensures |r| == 4
  {
    [n / 0x100_0000, n / 0x1_0000 % 0x100, n / 0x100 % 0x100, n % 0x100]
  }

  /** Big-endian decoding, as `read_u32::<BigEndian>` reads it. */
  function GetU32(s: seq<Byte>): (n: U32)
    requires |s| == 4
  {
    s[0] as int * 0x100_0000 + s[1] as int * 0x1_0000 + s[2] as int * 0x100 + s[3]
  }

  lemma GetPutU32(n: U32)
    ensures GetU32(PutU32(n)) == n
  {
    var a, b, c := n / 0x100, n / 0x1_0000, n / 0x100_0000;
    assert n == a * 0x100 + n % 0x100;
    assert a == b * 0x100 + a % 0x100;
    assert b == c * 0x100 + b % 0x100;
  }

  lemma PutGetU32(s: seq<Byte>)
    requires |s| == 4
    ensures PutU32(GetU32(s)) == s
  {
    var n := GetU32(s);
    assert n / 0x100 == s[0] as int * 0x1_0000 + s[1] as int * 0x100 + s[2];
    assert n / 0x1_0000 == s[0] as int * 0x100 + s[1];
    assert n / 0x100_0000 == s[0];
  }

  /** The first place where the byte strings differ is smaller in the first. */
  predicate ComesBefore(a: seq<Byte>, b: seq<Byte>)
    requires |a| == |b|
  {
    exists k :: 0 <= k < |a| && a[k] < b[k] && a[..k] == b[..k]
  }

  /** Big-endian: words are ordered as their bytes are, read from the left. */
  lemma BytesAreOrdered(a: U32, b: U32)
    ensures a < b <==> ComesBefore(PutU32(a), PutU32(b))
  {
    hide PutU32, ComesBefore;
    GetPutU32(a);
    GetPutU32(b);
    if a < b { OrderedBytes(a, b); }
    if ComesBefore(PutU32(a), PutU32(b)) { BeforeIsLess(PutU32(a), PutU32(b)); }
  }

  lemma BeforeIsLess(x: seq<Byte>, y: seq<Byte>)
    requires |x| == |y| == 4 && ComesBefore(x, y)
    ensures GetU32(x) < GetU32(y)
  {
    var k :| 0 <= k < |x| && x[k] < y[k] && x[..k] == y[..k];
    forall j | 0 <= j < k ensures x[j] == y[j] { assert x[..k][j] == y[..k][j]; }
  }

  lemma OrderedBytes(a: U32, b: U32)
    requires a < b
    ensures ComesBefore(PutU32(a), PutU32(b))
  {
    var x, y := PutU32(a), PutU32(b);
    GetPutU32(a);
    GetPutU32(b);
    hide PutU32;
    if x[0] != y[0] {
      assert x[0] < y[0] && x[..0] == y[..0];
    } else if x[1] != y[1] {
      assert x[1] < y[1] && x[..1] == y[..1];
    } else if x[2] != y[2] {
      assert x[2] < y[2] && x[..2] == y[..2];
    } else {
      assert x[3] < y[3] && x[..3] == y[..3];
    }
  }

  function Min(s: set<U32>): (m: U32)
    requires s != {}
    ensures m in s && forall y :: y in s ==> m <= y
  {
    LeastExists(s);
    var x: U32 :| x in s && forall y :: y in s ==> x <= y;
    x
  }

  /** The elements of a finite set in ascending order: the iteration order of a `BTreeMap`. */
  function Ascending(s: set<U32>): (r: seq<U32>)
    ensures |r| == |s|
    ensures forall x :: x in r <==> x in s
  {
    if s == {} then [] else [Min(s)] + Ascending(s - {Min(s)})
  }

  lemma {:induction false} AscendingIsSorted(s: set<U32>)
    ensures forall i, j :: 0 <= i < j < |Ascending(s)| ==> Ascending(s)[i] < Ascending(s)[j]
  {
    if s != {} {
      var m := Min(s);
      var tail := Ascending(s - {m});
      AscendingIsSorted(s - {m});
      forall j | 0 <= j < |tail| ensures m < tail[j] { assert tail[j] in tail; }
    }
  }

  lemma {:induction false} LeastExists(s: set<U32>)
    requires s != {}
    ensures exists x: U32 :: x in s && forall y :: y in s ==> x <= y
    decreases |s|
  {
    var x: U32 :| x in s;
    var rest := s - {x};
    if rest == {} {
      forall y | y in s ensures x <= y { assert y !in rest; }
    } else {
      LeastExists(rest);
      var m: U32 :| m in rest && forall y :: y in rest ==> m <= y;
      var least := if x < m then x else m;
      forall y | y in s ensures least <= y {
        if y != x { assert y in rest; }
      }
      assert least in s;
    }
  }

  lemma {:induction false} GreatestExists(s: set<U32>)
    requires s != {}
    ensures exists x: U32 :: x in s && forall y :: y in s ==> y <= x
    decreases |s|
  {
    var x: U32 :| x in s;
    var rest := s - {x};
    if rest == {} {
      forall y | y in s ensures y <= x { assert y !in rest; }
    } else {
      GreatestExists(rest);
      var m: U32 :| m in rest && forall y :: y in rest ==> y <= m;
      var greatest := if x < m then m else x;
      forall y | y in s ensures y <= greatest {
        if y != x { assert y in rest; }
      }
      assert greatest in s;
    }
  }

  function Max(s: set<U32>): (m: U32)
    requires s != {}
    ensures m in s && forall y :: y in s ==> y <= m
  {
    GreatestExists(s);
    var x: U32 :| x in s && forall y :: y in s ==> y <= x;
    x
  }
}
