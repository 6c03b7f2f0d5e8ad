/** Vocabulary shared by the models: results, optional values, bytes and
    the big-endian integers of the wire formats. */
module Common {

  datatype Option<+T> = None | Some(value: T)

  datatype Result<+T, +E> = Ok(value: T) | Err(error: E) {
    predicate IsFailure() { Err? }
    function PropagateFailure<U>(): Result<U, E>
      requires Err?
    {
      Err(error)
    }
    function Extract(): T
      requires Ok?
    {
      value
    }
  }

  type byte = x: int | 0 <= x < 0x100
  type u16 = x: int | 0 <= x < 0x1_0000
  type u32 = x: int | 0 <= x < 0x1_0000_0000
  type u64 = x: int | 0 <= x < 0x1_0000_0000_0000_0000

  const U64_MAX: u64 := 0xFFFF_FFFF_FFFF_FFFF

  function Be16(n: u16): seq<byte> {
    [n / 0x100, n % 0x100]
  }

  function Be32(n: u32): seq<byte> {
    Be16(n / 0x1_0000) + Be16(n % 0x1_0000)
  }

  function Be64(n: u64): seq<byte> {
    Be32(n / 0x1_0000_0000) + Be32(n % 0x1_0000_0000)
  }

  function FromBe16(b: seq<byte>): u16
    requires |b| >= 2
  {
    b[0] as int * 0x100 + b[1] as int
  }

  function FromBe32(b: seq<byte>): u32
    requires |b| >= 4
  {
    FromBe16(b) * 0x1_0000 + FromBe16(b[2..])
  }

  function FromBe64(b: seq<byte>): u64
    requires |b| >= 8
  {
    FromBe32(b) * 0x1_0000_0000 + FromBe32(b[4..])
  }

  lemma Be16Inverse(n: u16, rest: seq<byte>)
    ensures |Be16(n)| == 2
    ensures FromBe16(Be16(n) + rest) == n
    ensures (Be16(n) + rest)[2..] == rest
  {
  }

  lemma FromBe16Inverse(b: seq<byte>)
    requires |b| >= 2
    ensures Be16(FromBe16(b)) + b[2..] == b
  {
  }

  lemma Be32Inverse(n: u32, rest: seq<byte>)
    ensures |Be32(n)| == 4
    ensures FromBe32(Be32(n) + rest) == n
  {
    var b := Be32(n) + rest;
    assert b[0] == n / 0x1_0000 / 0x100 && b[1] == n / 0x1_0000 % 0x100;
    assert b[2..][0] == n % 0x1_0000 / 0x100 && b[2..][1] == n % 0x1_0000 % 0x100;
  }

  lemma Be64Inverse(n: u64, rest: seq<byte>)
    ensures |Be64(n)| == 8
    ensures FromBe64(Be64(n) + rest) == n
  {
    var high, low := Be32(n / 0x1_0000_0000), Be32(n % 0x1_0000_0000);
    Be32Inverse(n / 0x1_0000_0000, low + rest);
    Be32Inverse(n % 0x1_0000_0000, rest);
    assert Be64(n) + rest == high + (low + rest);
    assert (high + (low + rest))[4..] == low + rest;
  }

  lemma FromBe32Inverse(b: seq<byte>)
    requires |b| == 4
    ensures Be32(FromBe32(b)) == b
  {
    var high, low := FromBe16(b), FromBe16(b[2..]);
    assert FromBe32(b) / 0x1_0000 == high && FromBe32(b) % 0x1_0000 == low;
  }

  lemma SplitTail<T>(a: seq<T>, b: seq<T>, i: nat)
    requires i <= |b|
    ensures a + b == (a + b[..i]) + b[i..]
  {
  }

  lemma Assoc<T>(a: seq<T>, b: seq<T>, c: seq<T>)
    ensures (a + b) + c == a + (b + c)
  {
  }

  /** All parts in order. */
  function Concat<T>(parts: seq<seq<T>>): seq<T> {
    if parts == [] then [] else parts[0] + Concat(parts[1..])
  }

  lemma ConcatCons<T>(part: seq<T>, parts: seq<seq<T>>)
    ensures Concat([part] + parts) == part + Concat(parts)
  {
    assert ([part] + parts)[1..] == parts;
  }
}
