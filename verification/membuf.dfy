/** `basic_membuf<char>` (membuf.h): a stream buffer over a fixed memory
    region.  The region is an array and the six stream-buffer pointers are
    indices into it: `eback <= gptr <= egptr` delimit the get area and
    `pbase <= pptr <= epptr` the put area. */
module Membuf {

  /** `traits_type::eof()` for `char`. */
  const Eof := -1

  /** `traits_type::to_char_type(c)`: the low eight bits of `c`, as a
      conversion to `char` keeps them. */
  function ToCharType(c: int): (ch: char)
    ensures ch as int < 256 && (ch as int - c) % 256 == 0
  {
    (c % 256) as char
  }

  /** The first `n` bytes of `s`, or all of `s` when it is shorter: what a
      bounded buffer keeps of `s`. */
  function Truncate(s: seq<char>, n: nat): (t: seq<char>)
    ensures |t| <= n && |t| <= |s|
    ensures |t| == n || |t| == |s|
    ensures t == s[..|t|]
  {
    if |s| <= n then s else s[..n]
  }

  /** Writing `a` then `b` into a bounded buffer keeps what writing `a + b`
      keeps: once the buffer is full the rest is dropped. */
  lemma {:induction false} TruncateAppend(a: seq<char>, b: seq<char>, n: nat)
    ensures Truncate(Truncate(a, n) + b, n) == Truncate(a + b, n)
  {
    if |a| <= n {
      assert Truncate(a, n) == a;
    } else {
      assert (a + b)[..n] == a[..n];
      assert (a[..n] + b)[..n] == a[..n];
    }
  }

  class Membuf {
    var region: array<char>
    var eback: nat
    var gptr: nat
    var egptr: nat
    var pbase: nat
    var pptr: nat
    var epptr: nat

    /** The stream-buffer invariant on the six pointers. */
    predicate Valid()
      reads this
    {
      eback <= gptr <= egptr <= region.Length && pbase <= pptr <= epptr <= region.Length
    }

    /** `basic_membuf(s, n)`: the get and put areas both cover `n` bytes from
        `s`, and nothing is written yet. */
    constructor FromSize(a: array<char>, s: nat, n: nat)
      requires s + n <= a.Length
      ensures Valid() && region == a
      ensures eback == gptr == s && egptr == s + n
      ensures pbase == pptr == s && epptr == s + n
      ensures Begin() == End()
    {
      region := a;
      eback, gptr, egptr := s, s, s + n;
      pbase, pptr, epptr := s, s, s + n;
    }

    /** `basic_membuf(begin, end)`: the same, with the region given by its
        two ends. */
    constructor FromRange(a: array<char>, begin: nat, end: nat)
      requires begin <= end <= a.Length
      ensures Valid() && region == a
      ensures eback == gptr == begin && egptr == end
      ensures pbase == pptr == begin && epptr == end
      ensures Begin() == End()
    {
      region := a;
      eback, gptr, egptr := begin, begin, end;
      pbase, pptr, epptr := begin, begin, end;
    }

    /** `begin()`: the start of the put area. */
    function Begin(): nat
      reads this
    {
      pbase
    }

    /** `end()`: the put cursor, one past the last byte written. */
    function End(): (e: nat)
      reads this
      ensures Valid() ==> Begin() <= e <= epptr
    {
      pptr
    }

    /** The room of the put area. */
    function Capacity(): nat
      reads this
      requires Valid()
    {
      epptr - pbase
    }

    /** The bytes between `begin()` and `end()`. */
    function Written(): (w: seq<char>)
      reads this, region
      requires Valid()
      ensures |w| == End() - Begin() <= Capacity()
    {
      region[pbase..pptr]
    }

    /** `setbuf(s, n)`: both areas move to `n` bytes from `s`; whatever was
        written before is no longer between `begin()` and `end()`. */
    method Setbuf(a: array<char>, s: nat, n: nat)
      requires s + n <= a.Length
      modifies this
      ensures Valid() && region == a
      ensures eback == gptr == s && egptr == s + n
      ensures pbase == pptr == s && epptr == s + n
      ensures Written() == []
    {
      region := a;
      eback, gptr, egptr := s, s, s + n;
      pbase, pptr, epptr := s, s, s + n;
    }

    /** `pbackfail(c)`: with room before the get pointer, step it back one,
        store `c` there and return `c`; otherwise return eof and change
        nothing. */
    method Pbackfail(c: int) returns (r: int)
      requires Valid()
      modifies this, region
      ensures Valid() && region == old(region)
      ensures eback == old(eback) && egptr == old(egptr)
      ensures pbase == old(pbase) && pptr == old(pptr) && epptr == old(epptr)
      ensures old(gptr) > eback ==>
        gptr == old(gptr) - 1 && r == c && region[..] == old(region[..])[gptr := ToCharType(c)]
      ensures old(gptr) <= eback ==> gptr == old(gptr) && r == Eof && region[..] == old(region[..])
    {
      if gptr > eback {
        gptr := gptr - 1;
        region[gptr] := ToCharType(c);
        r := c;
      } else {
        r := Eof;
      }
    }

    /** The effect of `os << s` on a stream over this buffer: the bytes of `s`
        are stored at the put cursor until the put area is full, and the rest
        is dropped (the stream then fails silently). */
    method Put(s: seq<char>)
      requires Valid()
      modifies this, region
      ensures Valid() && region == old(region)
      ensures eback == old(eback) && gptr == old(gptr) && egptr == old(egptr)
      ensures pbase == old(pbase) && epptr == old(epptr)
      ensures Written() == Truncate(old(Written()) + s, Capacity())
      ensures forall i :: 0 <= i < region.Length && !(old(pptr) <= i < pptr) ==> region[i] == old(region[i])
    {
      ghost var w := Written();
      var i := 0;
      while i < |s| && pptr < epptr
        invariant Valid() && region == old(region)
        invariant eback == old(eback) && gptr == old(gptr) && egptr == old(egptr)
        invariant pbase == old(pbase) && epptr == old(epptr)
        invariant old(pptr) <= pptr && i == pptr - old(pptr) && i <= |s|
        invariant region[pbase..pptr] == w + s[..i]
        invariant forall j :: 0 <= j < region.Length && !(old(pptr) <= j < pptr) ==> region[j] == old(region[j])
        decreases |s| - i
      {
        region[pptr] := s[i];
        assert region[pbase..pptr + 1] == region[pbase..pptr] + [s[i]];
        assert s[..i + 1] == s[..i] + [s[i]];
        pptr := pptr + 1;
        i := i + 1;
      }
      assert |w| + |s| <= Capacity() ==> i == |s|;
      assert s[..i] == (w + s)[|w|..|w| + i];
      assert (w + s)[..|w| + i] == w + s[..i];
    }
  }
}
