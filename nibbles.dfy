/**
 * The nibble substrate of every svm codec: a byte buffer read, and written,
 * as a stream of 4-bit units, the high nibble of each byte before its low one.
 */
module Nibbles {
  import opened Ints
  import opened Wrappers

  type Nibble = x: int | 0 <= x < 16

  /** `(byte & 0xF0) >> 4` */
  function High(b: byte): Nibble { b / 16 }

  /** `byte & 0x0F` */
  function Low(b: byte): Nibble { b % 16 }

  /** The masks of the source agree with the arithmetic used here: `(byte & 0xF0) >> 4` ... */
  lemma HighMask(b: bv8)
    ensures ((b & 0xF0) >> 4) as int == High(b as int)
  {
  }

  /** ... and `byte & 0x0F`. */
  lemma LowMask(b: bv8)
    ensures (b & 0x0F) as int == Low(b as int)
  {
  }

  /** The whole nibble stream of a buffer: 2 nibbles per byte, high first. */
  function NibblesOf(data: seq<byte>): (ns: seq<Nibble>)
    ensures |ns| == 2 * |data|
  {
    seq(2 * |data|, k requires 0 <= k < 2 * |data| =>
      if k % 2 == 0 then High(data[k / 2]) else Low(data[k / 2]))
  }

  /** Taking one element off the remainder at `k` leaves the remainder at `k + 1`. */
  lemma StepRemaining<T>(s: seq<T>, k: nat)
    requires k < |s|
    ensures s[k..] != [] && s[k..][0] == s[k] && s[k + 1..] == s[k..][1..]
  {
  }

  /** Byte `i` contributes nibbles `2i` (high) and `2i + 1` (low). */
  lemma NibblesAt(data: seq<byte>, i: nat)
    requires i < |data|
    ensures NibblesOf(data)[2 * i] == High(data[i])
    ensures NibblesOf(data)[2 * i + 1] == Low(data[i])
  {
    assert (2 * i) / 2 == i && (2 * i) % 2 == 0;
    assert (2 * i + 1) / 2 == i && (2 * i + 1) % 2 == 1;
  }

  /**
   * `concat_nibbles`: pairs of nibbles become bytes (first nibble high);
   * a lone trailing nibble (the `rem` of the source) yields no byte.
   */
  function ConcatNibbles(ns: seq<Nibble>): (bs: seq<byte>)
    ensures |bs| == |ns| / 2
  {
    seq(|ns| / 2, i requires 0 <= i < |ns| / 2 => (ns[2 * i] as int) * 16 + ns[2 * i + 1])
  }

  /** Splitting bytes into nibbles and pairing them again gives the bytes back. */
  lemma ConcatOfNibbles(data: seq<byte>)
    ensures ConcatNibbles(NibblesOf(data)) == data
  {
    var ns := NibblesOf(data);
    forall i | 0 <= i < |data|
      ensures ConcatNibbles(ns)[i] == data[i]
    {
      assert (2 * i) / 2 == i && (2 * i) % 2 == 0;
      assert (2 * i + 1) / 2 == i && (2 * i + 1) % 2 == 1;
      assert ns[2 * i] == data[i] / 16 && ns[2 * i + 1] == data[i] % 16;
    }
  }

  /** Pairing an even number of nibbles and splitting them again gives the nibbles back. */
  lemma NibblesOfConcat(ns: seq<Nibble>)
    requires |ns| % 2 == 0
    ensures NibblesOf(ConcatNibbles(ns)) == ns
  {
    var bs := ConcatNibbles(ns);
    forall k | 0 <= k < |ns|
      ensures NibblesOf(bs)[k] == ns[k]
    {
      var i := k / 2;
      assert bs[i] == (ns[2 * i] as int) * 16 + ns[2 * i + 1];
      assert bs[i] / 16 == ns[2 * i] && bs[i] % 16 == ns[2 * i + 1];
      if k % 2 == 0 { assert k == 2 * i; } else { assert k == 2 * i + 1; }
    }
  }

  lemma NibblesOfAppend(a: seq<byte>, b: seq<byte>)
    ensures NibblesOf(a + b) == NibblesOf(a) + NibblesOf(b)
  {
    var l, r := NibblesOf(a + b), NibblesOf(a) + NibblesOf(b);
    forall k | 0 <= k < |l|
      ensures l[k] == r[k]
    {
      if k < 2 * |a| {
        assert (a + b)[k / 2] == a[k / 2];
      } else {
        assert (k - 2 * |a|) / 2 == k / 2 - |a|;
        assert (k - 2 * |a|) % 2 == k % 2;
        assert (a + b)[k / 2] == b[k / 2 - |a|];
      }
    }
  }

  /** The nibbles of bytes `i..j` are nibbles `2i..2j` of the stream. */
  lemma NibblesOfSlice(data: seq<byte>, i: nat, j: nat)
    requires i <= j <= |data|
    ensures NibblesOf(data)[2 * i..2 * j] == NibblesOf(data[i..j])
  {
    var l, r := NibblesOf(data)[2 * i..2 * j], NibblesOf(data[i..j]);
    forall k | 0 <= k < |l|
      ensures l[k] == r[k]
    {
      assert (2 * i + k) / 2 == i + k / 2;
      assert (2 * i + k) % 2 == k % 2;
    }
  }

  /** Nibbles `2c..2(c+n)` pair up into bytes `c..c+n`. */
  lemma AlignedBytes(data: seq<byte>, c: nat, n: nat)
    requires c + n <= |data|
    ensures ConcatNibbles(NibblesOf(data)[2 * c..2 * (c + n)]) == data[c..c + n]
  {
    var piece := data[c..c + n];
    NibblesOfSlice(data, c, c + n);
    assert NibblesOf(data)[2 * c..2 * (c + n)] == NibblesOf(piece);
    ConcatOfNibbles(piece);
  }

  // ---------------------------------------------------------------------
  // Writer

  /** The zero nibble that evens an odd-length stream. */
  function Pad(ns: seq<Nibble>): (p: seq<Nibble>)
  {
    if |ns| % 2 == 0 then [] else [0]
  }

  /** The bytes a writer holding `ns` flushes to. */
  function Flush(ns: seq<Nibble>): seq<byte>
  {
    ConcatNibbles(ns + Pad(ns))
  }

  /** Flushed bytes read back as the written nibbles followed by at most one zero pad nibble. */
  lemma FlushNibbles(ns: seq<Nibble>)
    ensures NibblesOf(Flush(ns)) == ns + Pad(ns)
    ensures |Pad(ns)| <= 1 && (|ns| + |Pad(ns)|) % 2 == 0
  {
    var padded := ns + Pad(ns);
    PaddedIsEven(ns);
    NibblesOfConcat(padded);
    assert Flush(ns) == ConcatNibbles(padded);
  }

  lemma PaddedIsEven(ns: seq<Nibble>)
    ensures |Pad(ns)| <= 1 && (|ns| + |Pad(ns)|) % 2 == 0
  {
    var n := |ns|;
    if n % 2 == 0 {
      assert Pad(ns) == [];
    } else {
      assert |Pad(ns)| == 1;
      assert (n + 1) % 2 == 0;
    }
  }

  /** `NibbleWriter`: accumulates nibbles and flushes them to bytes. */
  class NibbleWriter {
    var nibbles: seq<Nibble>

    constructor ()
      ensures nibbles == []
    {
      nibbles := [];
    }

    method Write(ns: seq<Nibble>)
      modifies this
      ensures nibbles == old(nibbles) + ns
    {
      nibbles := nibbles + ns;
    }

    /** `into_bytes`: the written nibbles, padded with a zero low nibble when odd. */
    method IntoBytes() returns (bytes: seq<byte>)
      ensures |bytes| == (|nibbles| + 1) / 2
      ensures NibblesOf(bytes) == nibbles + Pad(nibbles)
    {
      bytes := Flush(nibbles);
      FlushNibbles(nibbles);
    }
  }

  // ---------------------------------------------------------------------
  // Reader

  function Min(a: nat, b: nat): nat { if a < b then a else b }

  /**
   * `NibbleIter`: a cursor over `data`. `last_byte` holds a byte whose high
   * nibble was returned and whose low nibble is still due; `no_more_bytes`
   * records that the end was hit.
   */
  class NibbleIter {
    const data: seq<byte>
    const length: nat
    var cursor: nat
    var noMoreBytes: bool
    var lastByte: Option<byte>
    var nibblesRead: nat

    ghost predicate Valid()
      reads this
    {
      && length == |data|
      && cursor <= length
      && (lastByte.Some? ==> 1 <= cursor && lastByte.value == data[cursor - 1])
      && nibblesRead == 2 * cursor - (if lastByte.Some? then 1 else 0)
      && (noMoreBytes ==> cursor == length && lastByte.None?)
    }

    /** The nibbles not yet returned. */
    function Remaining(): (rem: seq<Nibble>)
      reads this
      requires Valid()
      ensures |rem| == 2 * |data| - nibblesRead
    {
      NibblesOf(data)[nibblesRead..]
    }

    constructor (data: seq<byte>)
      ensures Valid() && this.data == data
      ensures nibblesRead == 0 && !noMoreBytes
      ensures Remaining() == NibblesOf(data)
    {
      this.data := data;
      this.length := |data|;
      this.cursor := 0;
      this.nibblesRead := 0;
      this.lastByte := None;
      this.noMoreBytes := false;
    }

    /** `is_byte_aligned`: an even number of nibbles was read, so no byte is half-read. */
    function IsByteAligned(): (aligned: bool)
      reads this
      requires Valid()
      ensures aligned <==> nibblesRead % 2 == 0
      ensures aligned <==> lastByte.None?
    {
      nibblesRead % 2 == 0
    }

    /**
     * `next`: the next nibble of the stream, or `None` at the end, which also
     * sets `no_more_bytes`.
     */
    method Next() returns (r: Option<Nibble>)
      requires Valid()
      modifies this
      ensures Valid()
      ensures old(nibblesRead) < 2 * |data| ==>
        && r == Some(NibblesOf(data)[old(nibblesRead)])
        && nibblesRead == old(nibblesRead) + 1
        && noMoreBytes == old(noMoreBytes)
      ensures old(nibblesRead) == 2 * |data| ==>
        r == None && nibblesRead == old(nibblesRead) && noMoreBytes
      ensures r.Some? <==> old(Remaining()) != []
      ensures r.Some? ==> Remaining() == old(Remaining())[1..] && r.value == old(Remaining())[0]
      ensures r.None? ==> Remaining() == []
    {
      ghost var all := NibblesOf(data);
      ghost var k := nibblesRead;
      var nibble: Nibble;
      match lastByte {
        case None =>
          if noMoreBytes {
            return None;
          }
          if cursor >= length {
            noMoreBytes := true;
            return None;
          }
          var byte := data[cursor];
          NibblesAt(data, cursor);
          assert k == 2 * cursor;
          assert all[k] == High(byte);
          lastByte := Some(byte);
          cursor := cursor + 1;
          nibble := High(byte);
        case Some(byte) =>
          NibblesAt(data, cursor - 1);
          assert k == 2 * (cursor - 1) + 1;
          assert all[k] == Low(byte);
          lastByte := None;
          nibble := Low(byte);
      }
      StepRemaining(all, k);
      nibblesRead := nibblesRead + 1;
      r := Some(nibble);
    }

    /**
     * `take(n).collect()`, as `read_bytes` uses it: up to `n` nibbles,
     * stopping early at the end of the stream.
     */
    method NextNibbles(n: nat) returns (ns: seq<Nibble>)
      requires Valid()
      modifies this
      ensures Valid()
      ensures var k := Min(n, |old(Remaining())|);
        && ns == old(Remaining())[..k]
        && nibblesRead == old(nibblesRead) + k
        && noMoreBytes == (old(noMoreBytes) || n > |old(Remaining())|)
    {
      ghost var start := nibblesRead;
      ghost var all := NibblesOf(data);
      ns := [];
      var i := 0;
      var done := false;
      while i < n && !done
        invariant Valid()
        invariant 0 <= i <= n && start + i <= |all|
        invariant nibblesRead == start + i
        invariant ns == all[start..start + i]
        invariant done ==> start + i == |all| && i < n && noMoreBytes
        invariant !done ==> noMoreBytes == old(noMoreBytes)
        decreases n - i, !done
      {
        var nib := Next();
        if nib.None? {
          done := true;
        } else {
          ns := ns + [nib.value];
          i := i + 1;
        }
      }
    }

    /**
     * `read_bytes`: takes up to `2 * count` nibbles and pairs them into bytes;
     * when fewer remain it takes them all and hits the end.
     */
    method ReadBytes(count: nat) returns (bytes: seq<byte>)
      requires Valid()
      modifies this
      ensures Valid()
      ensures var k := Min(2 * count, |old(Remaining())|);
        && bytes == ConcatNibbles(old(Remaining())[..k])
        && nibblesRead == old(nibblesRead) + k
        && noMoreBytes == (old(noMoreBytes) || 2 * count > |old(Remaining())|)
      ensures old(IsByteAligned()) && 2 * count <= |old(Remaining())| ==>
        bytes == data[old(cursor)..old(cursor) + count]
    {
      ghost var rem := Remaining();
      ghost var aligned := IsByteAligned();
      ghost var c := cursor;
      var ns := NextNibbles(2 * count);
      bytes := ConcatNibbles(ns);
      if aligned && 2 * count <= |rem| {
        assert rem == NibblesOf(data)[2 * c..];
        assert ns == NibblesOf(data)[2 * c..2 * (c + count)];
        AlignedBytes(data, c, count);
      }
    }

    /** `read_byte`: `read_bytes(1)[0]`; `None` stands for the index panic when no whole byte remained. */
    method ReadByte() returns (r: Option<byte>)
      requires Valid()
      modifies this
      ensures Valid()
      ensures r.Some? <==> |old(Remaining())| >= 2
      ensures r.Some? ==> r.value == (old(Remaining())[0] as int) * 16 + old(Remaining())[1]
      ensures nibblesRead == old(nibblesRead) + Min(2, |old(Remaining())|)
      ensures old(IsByteAligned()) && r.Some? ==> r.value == data[old(cursor)]
    {
      var bytes := ReadBytes(1);
      if |bytes| == 0 {
        return None;
      }
      r := Some(bytes[0]);
    }

    /**
     * `ensure_eof`: when unaligned, skips the one padding nibble; then succeeds
     * exactly when no nibble is left, and otherwise fails with `err`.
     */
    method EnsureEof<E>(err: E) returns (r: Result<(), E>)
      requires Valid()
      modifies this
      ensures Valid()
      ensures r == if |old(Remaining())| <= 1 then Ok(()) else Err(err)
      ensures var skip := if old(IsByteAligned()) then 0 else 1;
        && nibblesRead == old(nibblesRead) + Min(|old(Remaining())|, skip + 1)
        && noMoreBytes == (|old(Remaining())| <= skip)
    {
      if !IsByteAligned() {
        var nib := Next();
        assert nib.Some?;
      }
      var n := Next();
      match n {
        case None => r := Ok(());
        case Some(_) => r := Err(err);
      }
    }
  }
}
