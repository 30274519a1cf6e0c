/**
 * The growing string buffer of utils.c: a NUL-terminated character array
 * `buf` holding `n_used` characters, with a nominal capacity `size` that
 * doubles whenever an append would not leave room for the terminator, and
 * a hard ceiling (BUFFER_MAX_SIZE, a parameter here) beyond which the
 * buffer is freed.
 *
 * C strings passed in are modelled as `Option<seq<char>>`: `None` is the
 * NULL pointer and `Some(s)` is the memory the pointer addresses, of which
 * only the part before the first NUL counts (see `CStr`).
 */
module Buffers {
  import opened Wrappers

  /** The characters of a C string: everything before its first NUL. */
  function CStr(s: seq<char>): (t: seq<char>)
    ensures |t| <= |s| && t == s[..|t|]
    ensures forall i :: 0 <= i < |t| ==> t[i] != '\0'
    ensures |t| < |s| ==> s[|t|] == '\0'
  {
    if s == [] || s[0] == '\0' then [] else [s[0]] + CStr(s[1..])
  }

  /** A NUL at `n` with none before it ends the C string at `n`. */
  lemma CStrAtTerminator(s: seq<char>, n: nat)
    requires n < |s| && s[n] == '\0'
    requires forall i :: 0 <= i < n ==> s[i] != '\0'
    ensures CStr(s) == s[..n]
  {
  }

  /** A string without NUL is its own C string. */
  lemma CStrOfPlainText(s: seq<char>)
    requires forall i :: 0 <= i < |s| ==> s[i] != '\0'
    ensures CStr(s) == s
  {
  }

  /** The text `buffer_add` appends for a data pointer: nothing for NULL. */
  function AddedText(data: Option<seq<char>>): seq<char>
  {
    match data
    case None => []
    case Some(s) => CStr(s)
  }

  /** `size` after `k` passes of the doubling loop `gb->size *= 2`. */
  function Doubled(size: nat, k: nat): nat
  {
    if k == 0 then size else 2 * Doubled(size, k - 1)
  }

  /**
   * The capacity the doubling loop of `buffer_add` stops at: `size`
   * doubled until it exceeds `total`.
   */
  function GrownSize(size: nat, total: nat): (g: nat)
    requires size > 0
    ensures g > total && g >= size
    decreases total - size
  {
    if total < size then size else GrownSize(2 * size, total)
  }

  lemma {:induction false} DoubledShift(size: nat, k: nat)
    ensures Doubled(size, k + 1) == Doubled(2 * size, k)
  {
    if k > 0 {
      DoubledShift(size, k - 1);
    }
  }

  /** The grown capacity is `size` doubled some number of times. */
  lemma {:induction false} GrownSizeIsADoubling(size: nat, total: nat)
    requires size > 0
    ensures exists k :: GrownSize(size, total) == Doubled(size, k)
    decreases total - size
  {
    if total < size {
      assert GrownSize(size, total) == Doubled(size, 0);
    } else {
      GrownSizeIsADoubling(2 * size, total);
      var k: nat :| GrownSize(2 * size, total) == Doubled(2 * size, k);
      DoubledShift(size, k);
      assert GrownSize(size, total) == Doubled(size, k + 1);
    }
  }

  lemma {:induction false} DoubledNeverShrinks(size: nat, k: nat)
    ensures Doubled(size, k) >= size
  {
    if k > 0 {
      DoubledNeverShrinks(size, k - 1);
    }
  }

  /** ... and the least such doubling that exceeds `total`. */
  lemma {:induction false} GrownSizeIsLeast(size: nat, total: nat, k: nat)
    requires size > 0
    requires Doubled(size, k) > total
    ensures GrownSize(size, total) <= Doubled(size, k)
    decreases total - size
  {
    if total < size {
      DoubledNeverShrinks(size, k);
    } else {
      assert k > 0;
      DoubledShift(size, k - 1);
      GrownSizeIsLeast(2 * size, total, k - 1);
    }
  }

  /**
   * The doubling loop as written never leaves a zero capacity: after any
   * number of passes `size` is still 0, so the guard `total_len >= size`
   * stays true for every append.
   */
  lemma {:induction false} ZeroCapacityNeverGrows(total: nat, k: nat)
    ensures Doubled(0, k) == 0 <= total
  {
    if k > 0 {
      ZeroCapacityNeverGrows(total, k - 1);
    }
  }

  class GrowingBuffer {
    /** The character array; `buf[n_used]` is the terminator. */
    var buf: array<char>
    var nUsed: nat
    var size: nat
    /** Set once `buffer_add` or `buffer_release` has freed the buffer. */
    var freed: bool
    /** BUFFER_MAX_SIZE. */
    const maxSize: nat

    ghost predicate Valid()
      reads this, buf
    {
      && !freed
      && nUsed <= size <= maxSize
      && size <= buf.Length && nUsed < buf.Length
      && buf[nUsed] == '\0'
      && forall i :: 0 <= i < nUsed ==> buf[i] != '\0'
    }

    /** The text held, which is the C string `buf` points to. */
    ghost function Contents(): seq<char>
      reads this, buf
      requires Valid()
    {
      buf[..nUsed]
    }

    /** `buffer_init` for a request that does not exceed the maximum. */
    constructor(numInitialBytes: nat, maxSize: nat)
      requires numInitialBytes <= maxSize
      ensures Valid() && fresh(buf)
      ensures Contents() == [] && nUsed == 0 && size == numInitialBytes
      ensures buf.Length == numInitialBytes + 1 && this.maxSize == maxSize
      ensures forall i :: 0 <= i < buf.Length ==> buf[i] == '\0'
    {
      this.maxSize := maxSize;
      nUsed := 0;
      size := numInitialBytes;
      buf := new char[numInitialBytes + 1](_ => '\0');
      freed := false;
    }

    /**
     * `buffer_add`. NULL or empty data changes nothing and returns 0.
     * Otherwise, when the text and its terminator do not fit, the capacity
     * is doubled until they do; if that exceeds the maximum the buffer is
     * freed and 0 returned, else the text moves to a fresh array of the new
     * capacity. The data is then appended and the new length returned.
     * Doubling starts from 1 when the capacity is 0 (see `ZeroCapacityNeverGrows`).
     */
    method Add(data: Option<seq<char>>) returns (r: int)
      requires Valid()
      modifies this, buf
      ensures var added, total := AddedText(data), old(nUsed) + |AddedText(data)|;
        && (added == [] ==>
              r == 0 && unchanged(this) && unchanged(buf))
        && (added != [] && total < old(size) ==>
              && Valid() && buf == old(buf) && size == old(size)
              && Contents() == old(Contents()) + added
              && r == nUsed == total && nUsed < size)
        && (added != [] && total >= old(size) ==>
              && size == GrownSize(if old(size) == 0 then 1 else old(size), total)
              && (size > maxSize ==> freed && r == 0)
              && (size <= maxSize ==>
                    && Valid() && fresh(buf) && buf.Length == size
                    && Contents() == old(Contents()) + added
                    && r == nUsed == total && nUsed < size))
    {
      if data.None? {
        return 0;
      }
      var text := CStr(data.value);
      if |text| == 0 {
        return 0;
      }
      var total := |text| + nUsed;
      if total >= size {
        var ok := Grow(total);
        if !ok {
          return 0;
        }
      }
      Append(text);
      return total;
    }

    /**
     * The doubling loop and reallocation of `buffer_add`: the capacity
     * doubles (from 1 when it is 0) until it exceeds `total`; past the
     * maximum the buffer is freed, else the text moves to a fresh array.
     */
    method Grow(total: nat) returns (ok: bool)
      requires Valid() && nUsed <= total && total >= size
      modifies this
      ensures size == GrownSize(if old(size) == 0 then 1 else old(size), total)
      ensures ok <==> size <= maxSize
      ensures !ok ==> freed
      ensures ok ==> && Valid() && fresh(buf) && buf.Length == size && total < size
                     && nUsed == old(nUsed) && Contents() == old(Contents())
    {
      var grown := if size == 0 then 1 else size;
      ghost var start := grown;
      while total >= grown
        invariant grown > 0 && GrownSize(grown, total) == GrownSize(start, total)
        decreases total - grown
      {
        grown := grown * 2;
      }
      size := grown;
      if size > maxSize {
        freed := true;
        return false;
      }
      var newData := new char[size](_ => '\0');
      forall i | 0 <= i <= nUsed {
        newData[i] := buf[i];
      }
      buf := newData;
      return true;
    }

    /** The copy of `buffer_add`: the text and a new terminator after the current contents. */
    method Append(text: seq<char>)
      requires Valid() && nUsed + |text| < size
      requires forall i :: 0 <= i < |text| ==> text[i] != '\0'
      modifies this, buf
      ensures Valid() && buf == old(buf) && size == old(size)
      ensures Contents() == old(Contents()) + text && nUsed == old(nUsed) + |text|
    {
      var total := nUsed + |text|;
      forall i | 0 <= i < |text| {
        buf[nUsed + i] := text[i];
      }
      buf[total] := '\0';
      assert buf[..total] == old(buf[..nUsed]) + text;
      nUsed := total;
    }

    /**
     * `buffer_add_char`: appends `c` (nothing for NUL, which ends the
     * two-character string built from it) and returns 1 whatever the
     * append did.
     */
    method AddChar(c: char) returns (r: int)
      requires Valid()
      modifies this, buf
      ensures r == 1
      ensures c == '\0' ==> unchanged(this) && unchanged(buf)
      ensures c != '\0' && old(nUsed) + 1 < old(size) ==>
        Valid() && Contents() == old(Contents()) + [c] && size == old(size)
      ensures c != '\0' && old(nUsed) + 1 >= old(size) ==>
        && size == GrownSize(if old(size) == 0 then 1 else old(size), old(nUsed) + 1)
        && (size > maxSize ==> freed)
        && (size <= maxSize ==> Valid() && Contents() == old(Contents()) + [c])
    {
      assert CStr([c, '\0']) == if c == '\0' then [] else [c];
      var _ := Add(Some([c, '\0']));
      return 1;
    }

    /**
     * `buffer_reset`: zeroes the first `size` characters and empties the
     * buffer, keeping its capacity; returns 1.
     */
    method Reset() returns (r: int)
      requires Valid()
      modifies this, buf
      ensures Valid() && Contents() == [] && r == 1
      ensures size == old(size) && buf == old(buf)
      ensures forall i :: 0 <= i < size ==> buf[i] == '\0'
      ensures forall i :: size <= i < buf.Length ==> buf[i] == old(buf[i])
    {
      forall i | 0 <= i < size {
        buf[i] := '\0';
      }
      nUsed := 0;
      return 1;
    }

    /**
     * `buffer_release`: terminates the text, frees the buffer record and
     * hands back the text itself.
     */
    method Release() returns (s: seq<char>)
      requires Valid()
      modifies this, buf
      ensures s == old(Contents()) && freed
    {
      buf[nUsed] := '\0';
      freed := true;
      CStrAtTerminator(buf[..], nUsed);
      s := CStr(buf[..]);
    }
  }

  /** `buffer_init`: NULL when more than the maximum is asked for. */
  method BufferInit(numInitialBytes: nat, maxSize: nat) returns (gb: GrowingBuffer?)
    ensures numInitialBytes > maxSize <==> gb == null
    ensures gb != null ==>
      && fresh(gb) && fresh(gb.buf) && gb.Valid() && gb.Contents() == []
      && gb.nUsed == 0 && gb.size == numInitialBytes && gb.maxSize == maxSize
      && gb.buf.Length == numInitialBytes + 1
      && forall i :: 0 <= i < gb.buf.Length ==> gb.buf[i] == '\0'
  {
    if numInitialBytes > maxSize {
      return null;
    }
    gb := new GrowingBuffer(numInitialBytes, maxSize);
  }
}
