/** Fixed-width integers as bytes, in both byte orders, and hexadecimal text. */
module Bytes {
  import opened Bits
  import opened Primitives

  type Byte = x: nat | x < 256

  /** The n low-order bytes of x, least significant first. */
  function LeBytes(x: nat, n: nat): (s: seq<Byte>)
    ensures |s| == n
  {
    if n == 0 then [] else [x % 256] + LeBytes(x / 256, n - 1)
  }

  function LeVal(s: seq<Byte>): (x: nat)
  {
    if s == [] then 0 else s[0] + 256 * LeVal(s[1..])
  }

  /** Byte i is digit i to the base 256, lowest first. */
  lemma {:induction false} LeDigit(x: nat, n: nat, i: nat)
    requires i < n
    ensures LeBytes(x, n)[i] == x / Pow256(i) % 256
  {
    if i > 0 {
      LeDigit(x / 256, n - 1, i - 1);
      DivDiv(x, 256, Pow256(i - 1));
    }
  }

  lemma {:induction false} LeRoundTrip(x: nat, n: nat)
    requires x < Pow256(n)
    ensures LeVal(LeBytes(x, n)) == x
  {
    if n > 0 {
      LeRoundTrip(x / 256, n - 1);
      assert LeBytes(x, n)[1..] == LeBytes(x / 256, n - 1);
    }
  }

  lemma {:induction false} LeInjective(s: seq<Byte>)
    ensures LeVal(s) < Pow256(|s|) && LeBytes(LeVal(s), |s|) == s
  {
    if s != [] {
      LeInjective(s[1..]);
      var v := LeVal(s[1..]);
      assert LeVal(s) % 256 == s[0] && LeVal(s) / 256 == v;
      assert s == [s[0]] + s[1..];
    }
  }

  /** The n low-order bytes of x, most significant first. */
  function BeBytes(x: nat, n: nat): (s: seq<Byte>)
    ensures |s| == n
  {
    if n == 0 then [] else BeBytes(x / 256, n - 1) + [x % 256]
  }

  /** Byte i from the end is digit i to the base 256. */
  lemma {:induction false} BeDigit(x: nat, n: nat, i: nat)
    requires i < n
    ensures BeBytes(x, n)[n - 1 - i] == x / Pow256(i) % 256
  {
    if i > 0 {
      BeDigit(x / 256, n - 1, i - 1);
      DivDiv(x, 256, Pow256(i - 1));
    }
  }

  function BeVal(s: seq<Byte>): (x: nat)
  {
    if s == [] then 0 else 256 * BeVal(s[..|s| - 1]) + s[|s| - 1]
  }

  lemma {:induction false} BeRoundTrip(x: nat, n: nat)
    requires x < Pow256(n)
    ensures BeVal(BeBytes(x, n)) == x
  {
    if n > 0 {
      BeRoundTrip(x / 256, n - 1);
      assert BeBytes(x, n)[..n - 1] == BeBytes(x / 256, n - 1);
    }
  }

  lemma {:induction false} BeInjective(s: seq<Byte>)
    ensures BeVal(s) < Pow256(|s|) && BeBytes(BeVal(s), |s|) == s
  {
    if s != [] {
      var n := |s| - 1;
      BeInjective(s[..n]);
      var v := BeVal(s[..n]);
      assert BeVal(s) % 256 == s[n] && BeVal(s) / 256 == v;
      assert s == s[..n] + [s[n]];
    }
  }

  // ---- Hexadecimal text ----

  function HexDigit(c: char): (d: int)
    ensures -1 <= d < 16
  {
    if '0' <= c <= '9' then c as int - '0' as int
    else if 'a' <= c <= 'f' then c as int - 'a' as int + 10
    else if 'A' <= c <= 'F' then c as int - 'A' as int + 10
    else -1
  }

  function DigitChar(d: nat): (c: char)
    requires d < 16
    ensures HexDigit(c) == d && c != 'x' && c != 'X' && c == "0123456789abcdef"[d]
  {
    if d < 10 then ('0' as int + d) as char else ('a' as int + d - 10) as char
  }

  /** The text GetHex writes: two digits per byte, last byte first. */
  ghost function HexText(data: seq<Byte>): (s: string)
    ensures |s| == 2 * |data|
  {
    seq(2 * |data|, i requires 0 <= i < 2 * |data| =>
      var b := data[|data| - 1 - i / 2];
      DigitChar(if i % 2 == 0 then b / 16 else b % 16))
  }

  /** Where the digits end. */
  ghost function DigitEnd(s: string, from: nat): (n: nat)
    requires from <= |s|
    ensures from <= n <= |s|
    ensures forall i :: from <= i < n ==> HexDigit(s[i]) != -1
    ensures n < |s| ==> HexDigit(s[n]) == -1
    decreases |s| - from
  {
    if from < |s| && HexDigit(s[from]) != -1 then DigitEnd(s, from + 1) else from
  }

  predicate Prefixed(s: string)
  {
    |s| >= 2 && s[0] == '0' && (s[1] == 'x' || s[1] == 'X')
  }

  /** The value of digit k from the right end, zero past the left end. */
  ghost function DigitFromEnd(s: string, lo: nat, hi: nat, k: nat): (d: nat)
    requires lo <= hi <= |s| && forall i :: lo <= i < hi ==> HexDigit(s[i]) != -1
    ensures d < 16
  {
    if k < hi - lo then HexDigit(s[hi - 1 - k]) else 0
  }

  ghost function HexByte(s: string, lo: nat, hi: nat, k: nat): (b: Byte)
    requires lo <= hi <= |s| && forall i :: lo <= i < hi ==> HexDigit(s[i]) != -1
  {
    DigitFromEnd(s, lo, hi, 2 * k) + 16 * DigitFromEnd(s, lo, hi, 2 * k + 1)
  }

  /** The bytes SetHex reads: digits from the right, two per byte, missing digits zero, extra digits ignored. */
  ghost function HexBytes(s: string, width: nat): (data: seq<Byte>)
    ensures |data| == width
  {
    var lo := if Prefixed(s) then 2 else 0;
    var hi := DigitEnd(s, lo);
    seq(width, k requires 0 <= k < width => HexByte(s, lo, hi, k))
  }

  lemma HexTextDigit(data: seq<Byte>, k: nat)
    requires k < |data|
    ensures var s := HexText(data);
            var i := |s| - 1 - 2 * k;
            i >= 1 && s[i] == DigitChar(data[k] % 16) && s[i - 1] == DigitChar(data[k] / 16)
  {
    hide DigitChar;
    var i := 2 * |data| - 1 - 2 * k;
    assert i % 2 == 1 && i / 2 == |data| - 1 - k && (i - 1) % 2 == 0 && (i - 1) / 2 == |data| - 1 - k;
  }

  lemma HexTextDigits(data: seq<Byte>)
    ensures var s := HexText(data);
            !Prefixed(s) && DigitEnd(s, 0) == |s| && forall i :: 0 <= i < |s| ==> HexDigit(s[i]) != -1
  {
    hide DigitChar, HexDigit, DigitEnd;
  }

  /** SetHex undoes GetHex at every width. */
  lemma HexRoundTrip(data: seq<Byte>)
    ensures HexBytes(HexText(data), |data|) == data
  {
    hide HexText, DigitChar, HexDigit, DigitEnd;
    HexTextDigits(data);
    forall k | 0 <= k < |data|
      ensures HexBytes(HexText(data), |data|)[k] == data[k]
    {
      HexTextDigit(data, k);
      var s := HexText(data);
      assert DigitFromEnd(s, 0, |s|, 2 * k) == data[k] % 16;
      assert DigitFromEnd(s, 0, |s|, 2 * k + 1) == data[k] / 16;
      assert HexByte(s, 0, |s|, k) == data[k];
      assert HexBytes(s, |data|)[k] == HexByte(s, 0, |s|, k);
    }
  }

  /** base_blob: a fixed number of bytes. */
  class BaseBlob {
    const data: array<Byte>

    constructor (width: nat)
      ensures fresh(data) && data.Length == width && forall i :: 0 <= i < width ==> data[i] == 0
    {
      data := new Byte[width](_ => 0);
    }

    method GetHex() returns (s: string)
      ensures s == HexText(data[..])
    {
      s := "";
      var i := data.Length;
      while i > 0
        invariant 0 <= i <= data.Length && |s| == 2 * (data.Length - i)
        invariant s == HexText(data[..])[..|s|]
      {
        i := i - 1;
        ghost var n := |s|;
        assert n % 2 == 0 && data.Length - 1 - n / 2 == i && (n + 1) % 2 == 1 && (n + 1) / 2 == n / 2;
        s := s + [DigitChar(data[i] / 16), DigitChar(data[i] % 16)];
      }
    }

    /** SetHex: clears, skips a 0x prefix, finds the end of the digits and fills bytes from the right. */
    method SetHex(s: string)
      modifies data
      ensures data[..] == HexBytes(s, data.Length)
    {
      for i := 0 to data.Length
        invariant forall j :: 0 <= j < i ==> data[j] == 0
      {
        data[i] := 0;
      }
      var lo := if Prefixed(s) then 2 else 0;
      var hi := lo;
      while hi < |s| && HexDigit(s[hi]) != -1
        invariant lo <= hi <= |s| && forall i :: lo <= i < hi ==> HexDigit(s[i]) != -1
        invariant DigitEnd(s, lo) == DigitEnd(s, hi)
      {
        hi := hi + 1;
      }
      assert DigitEnd(s, lo) == hi;
      Fill(s, lo, hi);
    }

    /** Writes two digits per byte, walking left from the end of the digits. */
    method Fill(s: string, lo: nat, hi: nat)
      requires lo <= hi <= |s| && forall i :: lo <= i < hi ==> HexDigit(s[i]) != -1
      requires forall j :: 0 <= j < data.Length ==> data[j] == 0
      modifies data
      ensures forall k :: 0 <= k < data.Length ==> data[k] == HexByte(s, lo, hi, k)
    {
      hide HexDigit;
      var pos, p := hi - 1, 0;
      while pos >= lo && p < data.Length
        invariant 0 <= p <= data.Length && pos >= lo - 1
        invariant pos >= lo ==> pos == hi - 1 - 2 * p && forall k :: p <= k < data.Length ==> data[k] == 0
        invariant forall k :: 0 <= k < p ==> data[k] == HexByte(s, lo, hi, k)
        invariant pos < lo ==> hi - lo <= 2 * p + 1
        invariant pos < lo && p < data.Length ==> data[p] == HexByte(s, lo, hi, p)
        invariant forall k :: p < k < data.Length ==> data[k] == 0
        decreases pos
      {
        data[p] := HexDigit(s[pos]);
        pos := pos - 1;
        if pos >= lo {
          data[p] := data[p] + 16 * HexDigit(s[pos]);
          pos := pos - 1;
          p := p + 1;
        }
      }
    }
  }
}
