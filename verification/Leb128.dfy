/** LEB128 varints (section 7.6 of the DWARF 5 standard) over u64, and zigzag-coded i64 deltas. */
module Leb128 {
  import opened Numbers

  const WORD: int := 0x1_0000_0000_0000_0000
  const I64_MIN: int := -0x8000_0000_0000_0000
  const I64_MAX: int := 0x7FFF_FFFF_FFFF_FFFF

  type i64 = x: int | I64_MIN <= x <= I64_MAX

  datatype Result<T> = Ok(value: T) | DecodeError {
    predicate IsFailure() { DecodeError? }
    function PropagateFailure<U>(): Result<U>
      requires DecodeError?
    {
      DecodeError
    }
    function Extract(): T
      requires Ok?
    {
      value
    }
  }

  // ---- Zigzag ---------------------------------------------------------------------------------

  /** Two's complement wrap-around to i64. */
  function Wrap(x: int): (r: i64)
    ensures exists k :: r == x + k * WORD
  {
    var m := x % WORD;
    var r := if m > I64_MAX then m - WORD else m;
    assert r == x + (if m > I64_MAX then -(x / WORD) - 1 else -(x / WORD)) * WORD;
    r
  }

  /** All 64 bits flipped: `^` with a negative number's sign mask. */
  function Flip(w: u64): u64 { U64_MAX - w }

  /** `(v << 1) ^ (v >> 63)`: the shifted word, flipped when the sign mask is all ones. */
  function Zigzag(v: i64): u64 {
    var shifted := (2 * v) % WORD;
    if v < 0 then Flip(shifted) else shifted
  }

  /** `(v >> 1) ^ -(v & 1)`: flipping an i64 maps `h` to `-h - 1`. */
  function Unzigzag(v: u64): i64 {
    if v % 2 == 1 then -(v / 2) - 1 else v / 2
  }

  lemma ZigzagRoundTrip(v: i64)
    ensures Unzigzag(Zigzag(v)) == v
  {}

  /** Zigzag is onto: every word is the code of exactly the value it decodes to. */
  lemma UnzigzagRoundTrip(w: u64)
    ensures Zigzag(Unzigzag(w)) == w
  {}

  /** Non-negative values are even codes, negative ones odd, nearest to zero first. */
  lemma ZigzagIs(v: i64)
    ensures Zigzag(v) == if v >= 0 then 2 * v else -2 * v - 1
  {}

  /** A wrapped difference added back with wrap-around restores the value. */
  lemma WrapCancels(p: i64, prev: i64)
    ensures Wrap(prev + Wrap(p - prev)) == p
  {}

  // ---- Varints --------------------------------------------------------------------------------

  function Leb(v: nat): (s: seq<u8>)
    ensures s != []
  {
    if v < 128 then [v] else [128 + v % 128] + Leb(v / 128)
  }

  function Pow128(k: nat): (r: int)
    ensures r > 0
  {
    if k == 0 then 1 else 128 * Pow128(k - 1)
  }

  lemma PowNine()
    ensures Pow128(9) == WORD / 2 && Pow128(10) == 64 * WORD
  {
    assert Pow128(3) == 0x20_0000;
    assert Pow128(6) == 0x400_0000_0000;
  }

  lemma {:induction false} PowMono(a: nat, b: nat)
    requires a <= b
    ensures Pow128(a) <= Pow128(b)
  {
    if a < b { PowMono(a, b - 1); }
  }

  /** `u64::from(byte & 0x7f) << (7 * k)`: bits shifted past the word are lost. */
  function Shifted(byte: u8, k: nat): int {
    ((byte % 128) * Pow128(k)) % WORD
  }

  /** The shifted group does not overlap the bits read before it, so `|` adds and stays within the word. */
  lemma ShiftedFits(byte: u8, k: nat, acc: int)
    requires k < 10 && 0 <= acc < Pow128(k)
    ensures 0 <= acc + Shifted(byte, k) <= U64_MAX
    ensures k < 9 ==> acc + Shifted(byte, k) < Pow128(k + 1) && Shifted(byte, k) == (byte % 128) * Pow128(k)
  {
    PowNine();
    var b := byte % 128;
    if k < 9 {
      PowMono(k + 1, 9);
      MulMono(b, 127, Pow128(k));
      MulMono(0, b, Pow128(k));
      assert Pow128(k + 1) == 128 * Pow128(k);
    } else {
      TopGroup(b);
    }
  }

  lemma TopGroup(b: int)
    ensures (b * (WORD / 2)) % WORD <= WORD / 2
  {
    var (h, e) := (b / 2, b % 2);
    assert b * (WORD / 2) == h * WORD + e * (WORD / 2);
    FloorIs(b * (WORD / 2), WORD, h);
  }

  /** `Reader::var` from the group at position `k` on: the value and the unread bytes. */
  function VarFrom(s: seq<u8>, k: nat, acc: int): Result<(u64, seq<u8>)>
    requires k <= 10 && 0 <= acc && (k < 10 ==> acc < Pow128(k))
    decreases 10 - k
  {
    if k == 10 || s == [] then DecodeError
    else
      ShiftedFits(s[0], k, acc);
      var next := acc + Shifted(s[0], k);
      if s[0] < 128 then Ok((next, s[1..])) else VarFrom(s[1..], k + 1, next)
  }

  function Var(s: seq<u8>): Result<(u64, seq<u8>)> {
    VarFrom(s, 0, 0)
  }

  /** Reading what was written gives the value back and stops right behind it. */
  lemma {:induction false} VarFromLeb(v: nat, k: nat, acc: int, rest: seq<u8>)
    requires k < 10 && 0 <= acc < Pow128(k) && acc + v * Pow128(k) <= U64_MAX
    ensures VarFrom(Leb(v) + rest, k, acc) == Ok((acc + v * Pow128(k), rest))
    decreases v
  {
    var s := Leb(v) + rest;
    ShiftedFits(s[0], k, acc);
    if v < 128 {
      assert s == [v] + rest && s[1..] == rest;
      LastGroup(v, k);
    } else {
      var q := v / 128;
      assert s[0] == 128 + v % 128 && s[1..] == Leb(q) + rest;
      NextGroup(v, k, acc);
      hide Leb, Pow128, Shifted;
      VarFromLeb(q, k + 1, acc + Shifted(s[0], k), rest);
    }
  }

  lemma LastGroup(v: nat, k: nat)
    requires v < 128 && v * Pow128(k) <= U64_MAX
    ensures Shifted(v, k) == v * Pow128(k)
  {
    MulMono(0, v, Pow128(k));
  }

  lemma NextGroup(v: nat, k: nat, acc: int)
    requires v >= 128 && k < 10 && 0 <= acc < Pow128(k) && acc + v * Pow128(k) <= U64_MAX
    ensures k < 9
    ensures var term := Shifted(128 + v % 128, k);
            acc + term < Pow128(k + 1) && acc + term + (v / 128) * Pow128(k + 1) == acc + v * Pow128(k)
  {
    TooFar(v, k);
    ShiftedFits(128 + v % 128, k, acc);
    Regroup(v, v / 128, v % 128, Pow128(k));
  }

  lemma Regroup(v: int, q: int, r: int, p: int)
    requires v == 128 * q + r
    ensures v * p == r * p + q * (128 * p)
  {}

  lemma TooFar(v: nat, k: nat)
    requires k < 10 && v >= 128 && v * Pow128(k) <= U64_MAX
    ensures k < 9
  {
    PowNine();
    MulMono(128, v, Pow128(k));
  }

  lemma VarRoundTrip(v: u64, rest: seq<u8>)
    ensures Var(Leb(v) + rest) == Ok((v, rest))
  {
    VarFromLeb(v, 0, 0, rest);
  }

  function Byte(s: seq<u8>): Result<(u8, seq<u8>)> {
    if s == [] then DecodeError else Ok((s[0], s[1..]))
  }

  // ---- The buffer and the reader ---------------------------------------------------------------

  class Writer {
    var bytes: seq<u8>

    constructor ()
      ensures bytes == []
    {
      bytes := [];
    }

    method Push(b: u8)
      modifies this
      ensures bytes == old(bytes) + [b]
    {
      bytes := bytes + [b];
    }

    method Put(value: u64)
      modifies this
      ensures bytes == old(bytes) + Leb(value)
    {
      var v := value;
      while v >= 128
        invariant 0 <= v
        invariant bytes + Leb(v) == old(bytes) + Leb(value)
        decreases v
      {
        assert bytes + Leb(v) == bytes + [128 + v % 128] + Leb(v / 128);
        Push(128 + v % 128);
        v := v / 128;
      }
      Push(v);
    }
  }

  class Reader {
    const input: seq<u8>
    var at: nat

    ghost predicate Valid()
      reads this
    {
      at <= |input|
    }

    ghost function Rest(): seq<u8>
      requires Valid()
      reads this
    {
      input[at..]
    }

    constructor (b: seq<u8>)
      ensures input == b && at == 0 && Valid() && Rest() == b
    {
      input := b;
      at := 0;
    }

    method ReadByte() returns (r: Result<u8>)
      requires Valid()
      modifies this
      ensures Valid()
      ensures r.Ok? == Byte(old(Rest())).Ok?
      ensures r.Ok? ==> Byte(old(Rest())).value == (r.value, Rest())
    {
      if at >= |input| { return DecodeError; }
      r := Ok(input[at]);
      at := at + 1;
    }

    method ReadVar() returns (r: Result<u64>)
      requires Valid()
      modifies this
      ensures Valid()
      ensures r.Ok? == Var(old(Rest())).Ok?
      ensures r.Ok? ==> Var(old(Rest())).value == (r.value, Rest())
    {
      var v := 0;
      assert Pow128(0) == 1;
      hide Pow128, Shifted;
      for k := 0 to 10
        invariant Valid() && 0 <= v && (k < 10 ==> v < Pow128(k))
        invariant VarFrom(Rest(), k, v) == Var(old(Rest()))
      {
        var byte := ReadByte();
        if byte.DecodeError? { return DecodeError; }
        ShiftedFits(byte.value, k, v);
        v := v + Shifted(byte.value, k);
        if byte.value < 128 { return Ok(v); }
      }
      return DecodeError;
    }
  }

  // ---- What any byte string reads as --------------------------------------------------------------

  /** The value of the first `n` seven-bit groups, least significant first. */
  function Groups(s: seq<u8>, n: nat): nat
    requires n <= |s|
  {
    if n == 0 then 0
    else
      MulMono(0, s[n - 1] % 128, Pow128(n - 1));
      Groups(s, n - 1) + (s[n - 1] % 128) * Pow128(n - 1)
  }

  /** The varint at the front is `n` bytes long: all but its last byte are marked as continued. */
  predicate EndsAfter(s: seq<u8>, n: nat) {
    1 <= n <= 10 && n <= |s| && s[n - 1] < 128 && forall i :: 0 <= i < n - 1 ==> s[i] >= 128
  }

  lemma {:induction false} VarFromMeans(s: seq<u8>, k: nat)
    requires k <= 10 && k <= |s| && (forall i :: 0 <= i < k ==> s[i] >= 128)
    requires k < 10 ==> Groups(s, k) < Pow128(k)
    ensures var r := VarFrom(s[k..], k, Groups(s, k));
            && (r.Ok? <==> exists n :: k < n && EndsAfter(s, n))
            && (forall n :: k < n && EndsAfter(s, n) && r.Ok? ==> r.value == (Groups(s, n) % WORD, s[n..]))
    decreases 10 - k
  {
    if k < 10 && k < |s| {
      var rest := s[k..];
      assert rest[0] == s[k] && rest[1..] == s[k + 1..];
      ShiftedFits(s[k], k, Groups(s, k));
      GroupAdds(s, k);
      if s[k] < 128 {
        assert EndsAfter(s, k + 1);
        assert forall n :: k < n && EndsAfter(s, n) ==> n == k + 1;
      } else {
        assert forall n :: k < n && EndsAfter(s, n) ==> k + 1 < n;
        if k < 9 {
          VarFromMeans(s, k + 1);
        } else {
          assert forall n :: k < n ==> !EndsAfter(s, n);
        }
      }
    }
  }

  /** Reading one more group adds it, modulo the word. */
  lemma GroupAdds(s: seq<u8>, k: nat)
    requires k < 10 && k < |s| && Groups(s, k) < Pow128(k)
    ensures Groups(s, k) + Shifted(s[k], k) == Groups(s, k + 1) % WORD
    ensures k < 9 ==> Groups(s, k) + Shifted(s[k], k) == Groups(s, k + 1)
  {
    ShiftedFits(s[k], k, Groups(s, k));
    PowNine();
    if k < 9 {
      PowMono(k + 1, 9);
    } else {
      WrapsOnce(Groups(s, k), (s[k] % 128) * Pow128(k));
    }
  }

  lemma WrapsOnce(a: int, b: int)
    requires 0 <= a && 0 <= b && a + b % WORD < WORD
    ensures (a + b) % WORD == a + b % WORD
  {
    FloorIs(a + b, WORD, b / WORD);
  }

  /**
   * Any byte string decodes exactly when one of its first ten bytes ends the varint; the value is that of its groups
   * modulo the word, also for overlong forms, and the reader stops right behind it.
   */
  lemma VarMeans(s: seq<u8>, n: nat)
    ensures Var(s).Ok? <==> exists m :: EndsAfter(s, m)
    ensures EndsAfter(s, n) ==> Var(s) == Ok((Groups(s, n) % WORD, s[n..]))
  {
    assert s[0..] == s;
    VarFromMeans(s, 0);
  }

  /** What is written is the one shortest form: continued groups up to a last nonzero one, of exactly this value. */
  lemma {:induction false} LebIsShortest(v: nat)
    ensures var s := Leb(v);
            && s[|s| - 1] < 128 && (v > 0 ==> s[|s| - 1] > 0)
            && (forall i :: 0 <= i < |s| - 1 ==> s[i] >= 128)
            && Groups(s, |s|) == v
  {
    if v >= 128 {
      var (s, t) := (Leb(v), Leb(v / 128));
      LebIsShortest(v / 128);
      assert s == [128 + v % 128] + t;
      GroupsShift(s, |t|);
      assert s[1..] == t;
    } else {
      assert Groups([v], 0) == 0 && Pow128(0) == 1;
    }
  }

  /** The value of a byte string from its first group and the rest. */
  lemma {:induction false} GroupsShift(s: seq<u8>, n: nat)
    requires n < |s|
    ensures Groups(s, n + 1) == s[0] % 128 + 128 * Groups(s[1..], n)
  {
    if n == 0 {
      assert Groups(s, 0) == 0 && Pow128(0) == 1;
    } else {
      GroupsShift(s, n - 1);
      assert s[1..][n - 1] == s[n];
      assert Pow128(n) == 128 * Pow128(n - 1);
      ShiftTerm(s[n] % 128, Pow128(n - 1));
    }
  }

  lemma ShiftTerm(g: int, p: int)
    ensures g * (128 * p) == 128 * (g * p)
  {}
}
