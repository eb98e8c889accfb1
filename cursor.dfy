/**
  The byte cursor of `Dis68k` (dis68k.h) as a value: a read-only window
  `mem[begin..end]`, the read position `cur`, the 32-bit instruction address
  that moves in lock-step with `cur`, and the sticky `overflow` flag.
  The class `Disassembler.Dis68k` holds the same fields and its methods are
  proved against the functions here.
*/
module ByteCursor {

  type u8 = x: int | 0 <= x < 0x100
  type u16 = x: int | 0 <= x < 0x1_0000
  type u32 = x: int | 0 <= x < 0x1_0000_0000

  /** A value as the source's `uint32_t` arithmetic leaves it. */
  function Wrap32(x: int): u32
  {
    x % 0x1_0000_0000
  }

  function Min(a: nat, b: nat): nat { if a <= b then a else b }

  datatype Cursor = Cursor(mem: seq<u8>, begin: nat, end: nat, cur: nat, address: u32, overflow: bool)
  {
    /** The read position stays inside the window the caller lent: begin <= cur <= end. */
    ghost predicate Valid()
    {
      begin <= cur <= end <= |mem|
    }

    /** Number of whole words left before `end`. */
    function WordsLeft(): nat
      requires Valid()
    {
      (end - cur) / 2
    }
  }

  /** The cursor as the constructor leaves it. */
  function Start(mem: seq<u8>, begin: nat, end: nat, address: u32): (c: Cursor)
    requires begin <= end <= |mem|
    ensures c.Valid() && c.cur == c.begin && !c.overflow && c.address == address
  {
    Cursor(mem, begin, end, begin, address, false)
  }

  /**
    `d` is `c` after some reads: same window, `cur` not moved back and not
    past `end`, `address` moved by exactly as many bytes as `cur` (modulo
    2^32), and `overflow` never cleared.
  */
  ghost predicate Advances(c: Cursor, d: Cursor)
  {
    && d.mem == c.mem && d.begin == c.begin && d.end == c.end
    && c.cur <= d.cur <= d.end <= |d.mem| && d.begin <= c.cur
    && d.address == Wrap32(c.address + (d.cur - c.cur))
    && (c.overflow ==> d.overflow)
  }

  /**
    `d` is `c` after an attempt to read `n` words one after the other:
    as many of them as the window still holds were consumed, and
    `overflow` is set exactly when some read fell short.
  */
  ghost predicate Consumed(c: Cursor, d: Cursor, n: nat)
    requires c.Valid()
  {
    && Advances(c, d)
    && d.cur == c.cur + 2 * Min(n, c.WordsLeft())
    && d.overflow == (c.overflow || n > c.WordsLeft())
  }

  /** `getbyte` (dis68k.h:22-35). */
  function ReadByte(c: Cursor): (r: (u8, Cursor))
    requires c.Valid()
    ensures Advances(c, r.1)
  {
    if c.cur < c.end then
      (c.mem[c.cur], c.(cur := c.cur + 1, address := Wrap32(c.address + 1)))
    else
      (0, c.(overflow := true))
  }

  /**
    `getword` (dis68k.h:37-50). The test `cur < end - 1` needs two bytes:
    with one byte left nothing is consumed.
  */
  function ReadWord(c: Cursor): (r: (u16, Cursor))
    requires c.Valid()
    ensures Consumed(c, r.1, 1)
  {
    if c.cur < c.end - 1 then
      // (cur[0] << 8) | cur[1]: the two bytes occupy disjoint bits
      ((c.mem[c.cur] as int) * 0x100 + c.mem[c.cur + 1], c.(cur := c.cur + 2, address := Wrap32(c.address + 2)))
    else
      (0, c.(overflow := true))
  }

  lemma WrapAdd(a: int, x: int, y: int)
    ensures Wrap32(Wrap32(a + x) + y) == Wrap32(a + x + y)
  {
  }

  lemma {:induction false} AdvancesTransitive(c: Cursor, d: Cursor, e: Cursor)
    requires Advances(c, d) && Advances(d, e)
    ensures Advances(c, e)
  {
    WrapAdd(c.address, d.cur - c.cur, e.cur - d.cur);
  }

  /** Reading `n` words and then `m` words is reading `n + m` words. */
  lemma {:induction false} ConsumedCompose(c: Cursor, d: Cursor, e: Cursor, n: nat, m: nat)
    requires c.Valid() && Consumed(c, d, n)
    requires d.Valid() && Consumed(d, e, m)
    ensures Consumed(c, e, n + m)
  {
    AdvancesTransitive(c, d, e);
    if n <= c.WordsLeft() {
      assert d.WordsLeft() == c.WordsLeft() - n;
    } else {
      assert d.WordsLeft() == 0;
    }
  }

  lemma ConsumedNothing(c: Cursor)
    requires c.Valid()
    ensures Consumed(c, c, 0)
  {
  }

  /** Reads keep `begin <= cur <= end`. */
  lemma AdvancesValid(c: Cursor, d: Cursor)
    requires Advances(c, d)
    ensures d.Valid()
  {
  }

  /**
    Starting from the constructor's state, `address - start == cur - begin`
    (modulo 2^32) holds after any sequence of reads.
  */
  lemma {:induction false} LockStep(c: Cursor, d: Cursor, start: u32)
    requires c.address == Wrap32(start + (c.cur - c.begin))
    requires Advances(c, d)
    ensures d.address == Wrap32(start + (d.cur - d.begin))
  {
    WrapAdd(start, c.cur - c.begin, d.cur - c.cur);
  }

  /**
    `getword` is two `getbyte`s when two bytes remain, high byte first; when
    fewer remain it consumes nothing, even though `getbyte` would still
    consume a last single byte.
  */
  lemma {:induction false} ReadWordIsTwoBytes(c: Cursor)
    requires c.Valid()
    ensures c.cur + 1 < c.end ==>
      var (hi, c1) := ReadByte(c);
      var (lo, c2) := ReadByte(c1);
      ReadWord(c) == ((hi as int) * 0x100 + lo, c2)
    ensures c.cur + 1 >= c.end ==>
      ReadWord(c) == (0, c.(overflow := true)) &&
      (c.cur < c.end ==> ReadByte(c).1.cur == c.cur + 1)
  {
    if c.cur + 1 < c.end {
      WrapAdd(c.address, 1, 1);
    }
  }

  /** The word read splits back into the two bytes it was assembled from. */
  lemma ReadWordBigEndian(c: Cursor)
    requires c.Valid() && c.cur + 1 < c.end
    ensures ReadWord(c).0 / 0x100 == c.mem[c.cur]
    ensures ReadWord(c).0 % 0x100 == c.mem[c.cur + 1]
  {
  }

  /** A read past the end yields the zero "phantom" word and sets `overflow`. */
  lemma ShortReadIsZero(c: Cursor)
    requires c.Valid() && c.WordsLeft() == 0
    ensures ReadWord(c).0 == 0 && ReadWord(c).1.overflow && ReadWord(c).1.cur == c.cur
  {
  }
}
