// Log sequence numbers: byte strings compared as SQL Server compares them, written to the
// state file as upper-case hexadecimal.
module Lsn {
  import opened Common

  newtype byte = x: int | 0 <= x < 256

  type Lsn = seq<byte>

  // SQL Server's LSNs have ten bytes.
  const LSN_BYTES: nat := 10

  // ---------- numeric value and byte order ----------

  function Pow256(n: nat): (p: nat)
    ensures p > 0
  {
    if n == 0 then 1 else 256 * Pow256(n - 1)
  }

  // The number an LSN denotes, most significant byte first.
  function Value(l: Lsn): nat {
    if l == [] then 0 else l[0] as nat * Pow256(|l| - 1) + Value(l[1..])
  }

  // Lexicographic comparison, a proper prefix being smaller: negative, zero or positive.
  function Lex<T>(rank: T -> int, a: seq<T>, b: seq<T>): int {
    if a == [] && b == [] then 0
    else if a == [] then -1
    else if b == [] then 1
    else if rank(a[0]) < rank(b[0]) then -1
    else if rank(a[0]) > rank(b[0]) then 1
    else Lex(rank, a[1..], b[1..])
  }

  lemma LexStep<T>(rank: T -> int, a: seq<T>, b: seq<T>)
    requires a != [] && b != []
    ensures Lex(rank, a, b) ==
            if rank(a[0]) < rank(b[0]) then -1
            else if rank(a[0]) > rank(b[0]) then 1
            else Lex(rank, a[1..], b[1..])
  {
  }

  const BYTE_RANK: byte -> int := (b: byte) => b as int

  const CHAR_RANK: char -> int := (c: char) => c as int

  function CompareBytes(a: Lsn, b: Lsn): int { Lex(BYTE_RANK, a, b) }

  function CompareHex(a: string, b: string): int { Lex(CHAR_RANK, a, b) }

  lemma {:induction false} ValueBound(l: Lsn)
    ensures Value(l) < Pow256(|l|)
  {
    if l != [] {
      ValueBound(l[1..]);
      HigherFirstByte(l[0] as nat, 256, Pow256(|l| - 1), Value(l[1..]), 0);
    }
  }

  lemma HigherFirstByte(x: nat, y: nat, p: nat, v: nat, w: nat)
    requires x < y && v < p
    ensures x * p + v < y * p + w
  {
    assert (x + 1) * p <= y * p;
    assert (x + 1) * p == x * p + p;
  }

  // On LSNs of one length, byte comparison is numeric comparison and only equal bytes compare equal.
  lemma {:induction false} CompareIsNumeric(a: Lsn, b: Lsn)
    requires |a| == |b|
    ensures CompareBytes(a, b) < 0 <==> Value(a) < Value(b)
    ensures CompareBytes(a, b) > 0 <==> Value(a) > Value(b)
    ensures CompareBytes(a, b) == 0 <==> a == b
  {
    if a != [] {
      CompareIsNumeric(a[1..], b[1..]);
      ValueBound(a[1..]);
      ValueBound(b[1..]);
      var p := Pow256(|a| - 1);
      if a[0] < b[0] {
        HigherFirstByte(a[0] as nat, b[0] as nat, p, Value(a[1..]), Value(b[1..]));
      } else if b[0] < a[0] {
        HigherFirstByte(b[0] as nat, a[0] as nat, p, Value(b[1..]), Value(a[1..]));
      } else {
        assert a == [a[0]] + a[1..] && b == [b[0]] + b[1..];
      }
    }
  }

  // Of a sequence of things that carry an LSN, the last LSN that is not empty.
  function LastNonEmpty<T>(lsnOf: T -> Lsn, s: seq<T>): Lsn {
    if s == [] then []
    else if lsnOf(s[|s| - 1]) != [] then lsnOf(s[|s| - 1])
    else LastNonEmpty(lsnOf, s[..|s| - 1])
  }

  // ---------- hexadecimal ----------

  function HexDigit(n: nat): char
    requires n < 16
  {
    "0123456789ABCDEF"[n]
  }

  // Both letter cases are accepted, as hexadecimal decoders do.
  function DigitValue(c: char): Option<nat> {
    if '0' <= c <= '9' then Some(c as nat - '0' as nat)
    else if 'A' <= c <= 'F' then Some(c as nat - 'A' as nat + 10)
    else if 'a' <= c <= 'f' then Some(c as nat - 'a' as nat + 10)
    else None
  }

  function ToHexString(l: Lsn): string {
    if l == [] then ""
    else [HexDigit(l[0] as nat / 16), HexDigit(l[0] as nat % 16)] + ToHexString(l[1..])
  }

  function DecodeHex(s: string): Option<Lsn> {
    if s == "" then Some([])
    else if |s| == 1 then None
    else
      match (DigitValue(s[0]), DigitValue(s[1]), DecodeHex(s[2..]))
      case (Some(hi), Some(lo), Some(rest)) =>
        if hi < 16 && lo < 16 then Some([(16 * hi + lo) as byte] + rest) else None
      case _ => None
  }

  function TrimPrefix(s: string): string {
    if |s| >= 2 && s[..2] == "0x" then s[2..] else s
  }

  function LsnFromHexString(s: string): Option<Lsn> {
    DecodeHex(TrimPrefix(s))
  }

  lemma DigitRoundTrip(n: nat)
    requires n < 16
    ensures DigitValue(HexDigit(n)) == Some(n)
    ensures HexDigit(n) != 'x'
  {
  }

  lemma DigitOrder(m: nat, n: nat)
    requires m < 16 && n < 16
    ensures m < n <==> HexDigit(m) < HexDigit(n)
  {
  }

  lemma DecodeStep(c: char, d: char, s: string, hi: nat, lo: nat, rest: Lsn)
    requires DigitValue(c) == Some(hi) && DigitValue(d) == Some(lo) && hi < 16 && lo < 16 && DecodeHex(s) == Some(rest)
    ensures DecodeHex([c, d] + s) == Some([(16 * hi + lo) as byte] + rest)
  {
    assert ([c, d] + s)[2..] == s;
  }

  lemma {:induction false} DecodeEncode(l: Lsn)
    ensures DecodeHex(ToHexString(l)) == Some(l)
  {
    if l != [] {
      var b := l[0] as nat;
      DecodeEncode(l[1..]);
      DigitRoundTrip(b / 16);
      DigitRoundTrip(b % 16);
      DecodeStep(HexDigit(b / 16), HexDigit(b % 16), ToHexString(l[1..]), b / 16, b % 16, l[1..]);
      assert l == [l[0]] + l[1..];
    }
  }

  // The text of an LSN is never mistaken for a prefixed one: 'x' is not a digit.
  lemma HexNeverPrefixed(l: Lsn)
    ensures TrimPrefix(ToHexString(l)) == ToHexString(l)
  {
    if l != [] {
      DigitRoundTrip(l[0] as nat % 16);
      assert ToHexString(l)[1] != 'x';
      assert "0x"[1] == 'x';
    }
  }

  // Reading back what was written gives the LSN, whether or not "0x" stands in front.
  lemma {:induction false} HexRoundTrip(l: Lsn)
    ensures LsnFromHexString(ToHexString(l)) == Some(l)
    ensures LsnFromHexString("0x" + ToHexString(l)) == Some(l)
  {
    DecodeEncode(l);
    HexNeverPrefixed(l);
    assert ("0x" + ToHexString(l))[..2] == "0x";
    assert ("0x" + ToHexString(l))[2..] == ToHexString(l);
  }

  function UpperDigit(c: char): char {
    if 'a' <= c <= 'f' then ((c as nat - 'a' as nat) + 'A' as nat) as char else c
  }

  // Reading is the inverse of writing up to letter case: an accepted text of length n denotes
  // n/2 bytes whose own text differs from it at most in the case of letters.
  lemma {:induction false} EncodeDecode(s: string, l: Lsn)
    requires DecodeHex(s) == Some(l)
    ensures |s| == 2 * |l|
    ensures |ToHexString(l)| == |s|
    ensures forall i :: 0 <= i < |s| ==> ToHexString(l)[i] == UpperDigit(s[i])
  {
    if s != "" {
      var hi, lo := DigitValue(s[0]).value, DigitValue(s[1]).value;
      EncodeDecode(s[2..], l[1..]);
      assert l[0] as nat == 16 * hi + lo;
      assert l[0] as nat / 16 == hi && l[0] as nat % 16 == lo;
      forall i | 0 <= i < |s|
        ensures ToHexString(l)[i] == UpperDigit(s[i])
      {
        if i >= 2 {
          assert s[i] == s[2..][i - 2];
          assert ToHexString(l)[i] == ToHexString(l[1..])[i - 2];
        }
      }
    }
  }

  // Sorting the hexadecimal texts sorts the LSNs, for LSNs of any lengths.
  lemma {:induction false} HexOrderIsByteOrder(a: Lsn, b: Lsn)
    ensures CompareHex(ToHexString(a), ToHexString(b)) == CompareBytes(a, b)
  {
    if a != [] && b != [] {
      var s, t := ToHexString(a), ToHexString(b);
      DigitOrder(a[0] as nat / 16, b[0] as nat / 16);
      DigitOrder(b[0] as nat / 16, a[0] as nat / 16);
      DigitOrder(a[0] as nat % 16, b[0] as nat % 16);
      DigitOrder(b[0] as nat % 16, a[0] as nat % 16);
      assert s[1..][1..] == s[2..] == ToHexString(a[1..]);
      assert t[1..][1..] == t[2..] == ToHexString(b[1..]);
      LexStep(CHAR_RANK, s, t);
      LexStep(CHAR_RANK, s[1..], t[1..]);
      HexOrderIsByteOrder(a[1..], b[1..]);
    }
  }

  // The text of an LSN has two upper-case digits a byte, the higher one first.
  lemma {:induction false} HexText(l: Lsn, k: nat)
    requires k < |l|
    ensures |ToHexString(l)| == 2 * |l|
    ensures var digits, b := "0123456789ABCDEF", l[k] as nat;
            ToHexString(l)[2 * k] == digits[b / 16] && ToHexString(l)[2 * k + 1] == digits[b % 16]
  {
    if |l| > 1 {
      HexText(l[1..], if k > 0 then k - 1 else 0);
    }
  }

  // What hexadecimal decoders accept as a digit.
  predicate IsDigit(c: char) {
    '0' <= c <= '9' || 'A' <= c <= 'F' || 'a' <= c <= 'f'
  }

  lemma DigitIff(c: char)
    ensures DigitValue(c).Some? <==> IsDigit(c)
    ensures DigitValue(c).Some? ==> DigitValue(c).value < 16
  {
  }

  // A text denotes an LSN if and only if, without the prefix, it consists of pairs of hexadecimal digits.
  lemma {:induction false} DecodesIff(s: string)
    ensures DecodeHex(s).Some? <==> |s| % 2 == 0 && forall i :: 0 <= i < |s| ==> IsDigit(s[i])
  {
    if |s| >= 2 {
      var rest := s[2..];
      DecodesIff(rest);
      DigitIff(s[0]);
      DigitIff(s[1]);
      assert forall i :: 0 <= i < |rest| ==> rest[i] == s[i + 2];
      assert forall i :: 2 <= i < |s| ==> s[i] == rest[i - 2];
    }
  }
}
