/** Reading a response body under a byte limit, and the Retry-After pause (internal/httpx/client.go). */
module BoundedBody {
  import opened Common

  type Byte = bv8

  datatype ReadError = NoError | Eof | Broken

  /**
   What happens on one read: how many bytes arrive at most, and whether the end is announced with the last
   of them.
   */
  datatype Chunk = Chunk(size: nat, early: bool)

  /**
   A reader that makes progress: each read delivers bytes or ends the stream. It delivers `data` in
   chunks chosen by `plan`, then ends with an error if `broken` and with EOF otherwise.
   */
  class Reader {
    const data: seq<Byte>
    const broken: bool
    const plan: nat -> Chunk
    var pos: nat
    var turn: nat

    ghost predicate Valid()
      reads this
    {
      pos <= |data|
    }

    constructor (data: seq<Byte>, broken: bool, plan: nat -> Chunk)
      ensures Valid() && pos == 0 && this.data == data && this.broken == broken
    {
      this.data, this.broken, this.plan := data, broken, plan;
      pos, turn := 0, 0;
    }

    /** Reads into at most the first `room` places of `tmp`. */
    method Read(tmp: array<Byte>, room: nat) returns (n: nat, err: ReadError)
      requires Valid() && 0 < room <= tmp.Length
      modifies this, tmp
      ensures Valid() && n <= room && pos == old(pos) + n
      ensures tmp[..n] == data[old(pos)..pos]
      ensures n > 0 || err != NoError
      ensures err != NoError ==> pos == |data| && err == if broken then Broken else Eof
    {
      var c := plan(turn);
      turn := turn + 1;
      n := Min(Min(c.size + 1, room), |data| - pos);
      forall k | 0 <= k < n {
        tmp[k] := data[pos + k];
      }
      pos := pos + n;
      err := if pos == |data| && (n == 0 || c.early) then (if broken then Broken else Eof) else NoError;
    }
  }

  /** A pointer to a pooled byte slice. */
  class BufferPtr {
    var bytes: array<Byte>

    constructor (capacity: nat)
      ensures fresh(bytes)
    {
      bytes := new Byte[capacity];
    }
  }

  /** Go's append to the slice `buf[..len]`: in place while the capacity lasts, else in a new array. */
  method Append(buf: array<Byte>, len: nat, tmp: array<Byte>, n: nat) returns (out: array<Byte>)
    requires len <= buf.Length && n <= tmp.Length && tmp != buf
    modifies buf
    ensures len + n <= out.Length && out[..len + n] == old(buf[..len]) + tmp[..n]
    ensures out == buf || fresh(out)
  {
    if len + n <= buf.Length {
      out := buf;
    } else {
      out := new Byte[2 * (len + n)];
      forall k | 0 <= k < len {
        out[k] := buf[k];
      }
    }
    forall k | 0 <= k < n {
      out[len + k] := tmp[k];
    }
    assert out[..len] == old(buf[..len]);
    assert out[len..len + n] == tmp[..n];
    assert out[..len + n] == out[..len] + out[len..len + n];
  }

  datatype BodyError = TooLarge | ReadFailed

  /**
   The read loop. `ptr` is the pooled buffer and `tmp` the pooled chunk. The whole body is returned
   exactly when it fits the limit and the stream did not break, in an array that is not the pooled one.
   */
  method ReadBody(r: Reader, ptr: BufferPtr, tmp: array<Byte>, maxBytes: nat)
    returns (res: Result<array<Byte>, BodyError>)
    requires r.Valid() && r.pos == 0 && tmp.Length > 0 && ptr.bytes != tmp
    modifies r, tmp, ptr, ptr.bytes
    ensures res.Ok? <==> |r.data| <= maxBytes && !r.broken
    ensures res.Ok? ==> res.value[..] == r.data
    ensures res.Ok? ==> fresh(res.value) && res.value != ptr.bytes && res.value != tmp
    ensures |r.data| > maxBytes && !r.broken ==> res == Err(TooLarge)
    ensures |r.data| <= maxBytes && r.broken ==> res == Err(ReadFailed)
    ensures ptr.bytes == old(ptr.bytes) || fresh(ptr.bytes)
  {
    var buf, len := ptr.bytes, 0;
    var left := maxBytes + 1;
    while true
      invariant r.Valid() && len == r.pos && 0 <= left == maxBytes + 1 - len && len <= buf.Length
      invariant buf[..len] == r.data[..len]
      invariant buf == old(ptr.bytes) || fresh(buf)
      invariant buf != tmp && ptr.bytes == old(ptr.bytes)
      decreases |r.data| - r.pos, left
    {
      if left == 0 { break; }
      var n, err := r.Read(tmp, Min(left, tmp.Length));
      left := left - n;
      if n > 0 {
        ghost var before := r.data[..len];
        buf := Append(buf, len, tmp, n);
        len := len + n;
        assert r.data[..len] == before + r.data[len - n..len];
      }
      if err == Eof { break; }
      if err == Broken { return Err(ReadFailed); }
    }
    if len > maxBytes { return Err(TooLarge); }
    var out := new Byte[len];
    forall k | 0 <= k < len {
      out[k] := buf[k];
    }
    assert out[..] == buf[..len];
    ptr.bytes := buf;
    return Ok(out);
  }

  // ---------- Retry-After ----------

  const SECOND := 1_000_000_000
  const MAX_PAUSE := 60 * SECOND

  /** A trimmed header: absent, a number of seconds, a date `fromNow` ahead, or neither. */
  datatype Header = Blank | Seconds(secs: int) | Date(fromNow: int) | Unreadable

  const TWO_64 := 0x1_0000_0000_0000_0000

  /** The value a 64-bit signed product keeps. */
  function Wrap64(x: int): (r: int)
    ensures -TWO_64 / 2 <= r < TWO_64 / 2
    ensures -TWO_64 / 2 <= x < TWO_64 / 2 ==> r == x
  {
    (x + TWO_64 / 2) % TWO_64 - TWO_64 / 2
  }

  function RetryAfter(h: Header, fallback: int): int {
    match h
    case Blank => fallback
    case Seconds(secs) => if secs <= 0 then 0 else Min(Wrap64(secs * SECOND), MAX_PAUSE)
    case Date(d) => if d < 0 then 0 else Min(d, MAX_PAUSE)
    case Unreadable => fallback
  }

  /** The pause asked for in a header, capped at a minute. */
  function Intended(h: Header, fallback: int): int {
    match h
    case Seconds(secs) => Min(if secs <= 0 then 0 else secs * SECOND, MAX_PAUSE)
    case Date(d) => Min(if d < 0 then 0 else d, MAX_PAUSE)
    case _ => fallback
  }

  /**
   The conversion to nanoseconds can overflow. Beyond the cap the pause is right exactly when the number
   of nanoseconds, taken modulo 2^64, falls between the cap and 2^63; up to 292 years it always is.
   */
  lemma PauseRightIff(h: Header, fallback: int)
    ensures RetryAfter(h, fallback) == Intended(h, fallback) <==>
            h.Seconds? && h.secs > 60 ==>
              60_000_000_000 <= h.secs * 1_000_000_000 % 18_446_744_073_709_551_616 < 9_223_372_036_854_775_808
    ensures h.Seconds? && h.secs <= 9_223_372_036 ==> RetryAfter(h, fallback) == Intended(h, fallback)
    ensures RetryAfter(Seconds(9_223_372_037), fallback) < 0
  {
    if h.Seconds? && h.secs > 60 {
      WrapIsRemainder(h.secs * SECOND);
    }
  }

  /** The pause in nanoseconds: nothing for the past, at most a minute, and the fallback for no usable header. */
  lemma PauseValues(h: Header, fallback: int)
    ensures match h
            case Blank => RetryAfter(h, fallback) == fallback
            case Unreadable => RetryAfter(h, fallback) == fallback
            case Seconds(secs) =>
              && (secs <= 0 ==> RetryAfter(h, fallback) == 0)
              && (0 < secs <= 60 ==> RetryAfter(h, fallback) == secs * 1_000_000_000)
              && (60 < secs <= 9_223_372_036 ==> RetryAfter(h, fallback) == 60_000_000_000)
            case Date(fromNow) =>
              && (fromNow <= 0 ==> RetryAfter(h, fallback) == 0)
              && (0 < fromNow <= 60_000_000_000 ==> RetryAfter(h, fallback) == fromNow)
              && (fromNow > 60_000_000_000 ==> RetryAfter(h, fallback) == 60_000_000_000)
  {
  }

  lemma WrapIsRemainder(x: int)
    ensures Wrap64(x) == if x % TWO_64 < TWO_64 / 2 then x % TWO_64 else x % TWO_64 - TWO_64
  {
    var q, r := x / TWO_64, x % TWO_64;
    assert x + TWO_64 / 2 == q * TWO_64 + (r + TWO_64 / 2);
  }
}
