/**
 * The Vi command-sequence buffer (editor/viscintilla.h): a master
 * sequence that owns a character buffer, and sub-sequences that view a
 * window of the same buffer through a pair of indices.
 */
module CharSequences {
  import opened Globals

  /** The range of the source's uint. */
  const UIntRange: nat := 0x1_0000_0000

  /** The characters between first and last, both included; nothing when first > last. */
  function Window(chars: seq<char>, first: int, last: int): (w: seq<char>)
    requires first > last || (0 <= first && last < |chars|)
    ensures first <= last ==> |w| == last - first + 1
    ensures first > last ==> w == []
  {
    if first > last then [] else chars[first..last + 1]
  }

  /**
   * The indices of a sub-sequence of a sequence with indices f and l: a
   * non-negative `first` counts from f and a negative one from l; a
   * positive `last` counts from f and any other from l.
   */
  function SubBounds(f: int, l: int, first: int, last: int): (int, int)
  {
    (if first >= 0 then f + first else l + first, if last > 0 then f + last else l + last)
  }

  /** `(seq, 0, -1)` is the sequence without its last character. */
  lemma DropLast(chars: seq<char>, f: int, l: int)
    requires 0 <= f <= l < |chars|
    ensures var b := SubBounds(f, l, 0, -1);
      Window(chars, b.0, b.1) == Window(chars, f, l)[..l - f]
  {
  }

  /** `(seq, 1, 0)` is the sequence without its first character. */
  lemma DropFirst(chars: seq<char>, f: int, l: int)
    requires 0 <= f <= l < |chars|
    ensures var b := SubBounds(f, l, 1, 0);
      Window(chars, b.0, b.1) == Window(chars, f, l)[1..]
  {
  }

  /**
   * toUInt: every character a decimal digit gives success and the
   * decimal value in uint arithmetic (modulo 2^32); any other character
   * gives failure and 0. The empty sequence is the number 0.
   */
  function UIntValue(s: string): (r: (bool, nat))
    ensures r.0 <==> AllDigits(s)
    ensures r.1 < UIntRange && (!r.0 ==> r.1 == 0)
  {
    if AllDigits(s) then (true, Decimal(s) % UIntRange) else (false, 0)
  }

  /** Reading back the decimal text of a uint gives the number. */
  lemma UIntValueOfDecimalText(n: nat)
    requires n < UIntRange
    ensures UIntValue(DecimalText(n)) == (true, n)
  {
    DecimalOfText(n);
  }

  /** A string holding a non-digit does not convert, whatever else it holds. */
  lemma UIntValueRejects(s: string, i: nat)
    requires i < |s| && !IsDigit(s[i])
    ensures UIntValue(s) == (false, 0)
  {
  }

  /** Shifting in a digit commutes with taking the remainder modulo 2^32. */
  lemma ShiftMod(d: nat, x: nat)
    ensures ((d % 0x1_0000_0000) * 10 + x) % 0x1_0000_0000 == (d * 10 + x) % 0x1_0000_0000
  {
    var q := d / 0x1_0000_0000;
    var r := d % 0x1_0000_0000;
    var y := r * 10 + x;
    var k := y / 0x1_0000_0000;
    var m := y % 0x1_0000_0000;
    assert d * 10 + x == (q * 10 + k) * 0x1_0000_0000 + m;
  }

  /** One loop step in uint arithmetic keeps the value equal to the decimal value modulo 2^32. */
  lemma UIntStep(s: string, c: char, r: nat)
    requires AllDigits(s) && IsDigit(c) && r == Decimal(s) % UIntRange
    ensures AllDigits(s + [c])
    ensures (r * 10 + DigitValue(c)) % UIntRange == Decimal(s + [c]) % UIntRange
  {
    var t := s + [c];
    assert t[..|t| - 1] == s;
    assert Decimal(t) == Decimal(s) * 10 + DigitValue(c);
    ShiftMod(Decimal(s), DigitValue(c));
  }

  /** The master copy's character buffer, shared with its sub-sequences. */
  class Buffer {
    var chars: seq<char>

    constructor ()
      ensures chars == []
    {
      chars := [];
    }
  }

  class CharSequence {
    var buffer: Buffer
    var isCopy: bool
    var first: int
    var last: int

    /** The indices fall inside the buffer, or describe the empty sequence. */
    predicate InRange()
      reads this, buffer
    {
      first > last || (0 <= first && last < |buffer.chars|)
    }

    /** The master copy always views its whole buffer. */
    predicate Valid()
      reads this, buffer
    {
      InRange() && (!isCopy ==> first == 0 && last == |buffer.chars| - 1)
    }

    function Contents(): string
      reads this, buffer
      requires InRange()
    {
      Window(buffer.chars, first, last)
    }

    /** length: last - first + 1, which for a sub-sequence past its source's end may be negative. */
    function Length(): (n: int)
      reads this, buffer
      ensures InRange() && first <= last + 1 ==> n == |Contents()|
    {
      last - first + 1
    }

    /** isEmpty: first > last. */
    predicate IsEmpty()
      reads this, buffer
      ensures IsEmpty() && InRange() ==> Contents() == []
    {
      first > last
    }

    /** CharSequence(): an empty master copy with a buffer of its own. */
    constructor ()
      ensures Valid() && fresh(buffer) && !isCopy && first == 0 && last == -1
      ensures Contents() == [] && Length() == 0 && IsEmpty()
    {
      buffer := new Buffer();
      isCopy := false;
      first := 0;
      last := -1;
    }

    /** CharSequence(source, first, last): a copy viewing the source's buffer. */
    constructor Sub(source: CharSequence, first: int, last: int)
      ensures buffer == source.buffer && isCopy
      ensures (this.first, this.last) == SubBounds(source.first, source.last, first, last)
    {
      buffer := source.buffer;
      isCopy := true;
      this.first := if first >= 0 then source.first + first else source.last + first;
      this.last := if last > 0 then source.first + last else source.last + last;
    }

    /** append: the master copy grows by the character; a copy does not change. */
    method Append(c: char)
      requires Valid()
      modifies this, buffer
      ensures Valid() && isCopy == old(isCopy) && buffer == old(buffer)
      ensures !isCopy ==> Contents() == old(Contents()) + [c] && Length() == old(Length()) + 1
      ensures isCopy ==> first == old(first) && last == old(last) && buffer.chars == old(buffer.chars)
    {
      if !isCopy {
        buffer.chars := buffer.chars + [c];
        last := last + 1;
      }
    }

    /** clear: back to the empty sequence; only the master copy empties the buffer. */
    method Clear()
      requires Valid()
      modifies this, buffer
      ensures Valid() && isCopy == old(isCopy) && buffer == old(buffer)
      ensures first == 0 && last == -1 && Contents() == [] && IsEmpty() && Length() == 0
      ensures !isCopy ==> buffer.chars == []
      ensures isCopy ==> buffer.chars == old(buffer.chars)
    {
      first := 0;
      last := -1;
      if !isCopy {
        buffer.chars := [];
      }
    }

    /** toUInt, with its loop over the window in uint arithmetic. */
    method ToUInt() returns (ok: bool, result: nat)
      requires InRange()
      ensures (ok, result) == UIntValue(Contents())
    {
      result := 0;
      var i := first;
      while i <= last
        invariant first <= i && (i > first ==> 0 <= first && i <= last + 1)
        invariant AllDigits(Window(buffer.chars, first, i - 1))
        invariant result == Decimal(Window(buffer.chars, first, i - 1)) % UIntRange
      {
        var c := buffer.chars[i];
        if c < '0' || c > '9' {
          assert Contents()[i - first] == c;
          return false, 0;
        }
        UIntStep(Window(buffer.chars, first, i - 1), c, result);
        assert Window(buffer.chars, first, i) == Window(buffer.chars, first, i - 1) + [c];
        result := (result * 10 + DigitValue(c)) % UIntRange;
        i := i + 1;
      }
      ok := true;
    }
  }
}
