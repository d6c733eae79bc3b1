/**
 * The document store's native identifier (a BSON ObjectId) and its two
 * conversions at the system edge: `str(oid)`, used by `oid_str`, and the
 * `ObjectId(text)` constructor, used on every inbound id string.
 */
module ObjectIds {
  import opened Wrappers

  newtype byte = x: int | 0 <= x < 256

  /** An ObjectId is twelve raw bytes. */
  type ObjectId = s: seq<byte> | |s| == 12 witness [0, 0, 0, 0, 0, 0, 0, 0, 0, 0, 0, 0]

  /** The lower-case hexadecimal digit for a value below 16. */
  function HexDigit(n: int): (c: char)
    requires 0 <= n < 16
    ensures '0' <= c <= '9' || 'a' <= c <= 'f'
  {
    if n < 10 then ('0' as int + n) as char else ('a' as int + n - 10) as char
  }

  /** The value of a hexadecimal digit of either case, or None for any other character. */
  function HexValue(c: char): (r: Option<int>)
    ensures r.Some? ==> 0 <= r.value < 16
    ensures r.Some? <==> ('0' <= c <= '9' || 'a' <= c <= 'f' || 'A' <= c <= 'F')
  {
    if '0' <= c <= '9' then Some(c as int - '0' as int)
    else if 'a' <= c <= 'f' then Some(c as int - 'a' as int + 10)
    else if 'A' <= c <= 'F' then Some(c as int - 'A' as int + 10)
    else None
  }

  predicate IsLowerHex(s: string) {
    forall i :: 0 <= i < |s| ==> '0' <= s[i] <= '9' || 'a' <= s[i] <= 'f'
  }

  /** Two lower-case hex digits per byte, most significant nibble first. */
  function Hex(bs: seq<byte>): (s: string)
    ensures |s| == 2 * |bs|
    ensures IsLowerHex(s)
  {
    if bs == [] then []
    else [HexDigit(bs[0] as int / 16), HexDigit(bs[0] as int % 16)] + Hex(bs[1..])
  }

  /** Reads pairs of hex digits (either case) into bytes; None on an odd length or a non-digit. */
  function Unhex(s: string): (r: Option<seq<byte>>)
    ensures r.Some? ==> 2 * |r.value| == |s|
  {
    if s == [] then Some([])
    else if |s| < 2 then None
    else match (HexValue(s[0]), HexValue(s[1]), Unhex(s[2..]))
      case (Some(hi), Some(lo), Some(rest)) => Some([(hi * 16 + lo) as byte] + rest)
      case _ => None
  }

  /** `str(oid)`: the 24-character lower-case hex form. */
  function OidStr(o: ObjectId): (s: string)
    ensures |s| == 24 && IsLowerHex(s)
  {
    Hex(o)
  }

  /**
   * `ObjectId(text)`: accepted exactly when the text is 24 hex digits of
   * either case; None stands for the `InvalidId` the constructor raises.
   */
  function ParseOid(s: string): (r: Option<ObjectId>)
    ensures r.Some? <==> |s| == 24 && AllHex(s)
  {
    if |s| != 24 then None
    else
      UnhexDefined(s);
      match Unhex(s)
      case Some(bs) => Some(bs)
      case None => None
  }

  /** Every character is a hex digit of either case. */
  predicate AllHex(s: string) {
    forall i :: 0 <= i < |s| ==> HexValue(s[i]).Some?
  }

  /** Unhex succeeds exactly on an even number of hex digits. */
  lemma {:induction false} UnhexDefined(s: string)
    ensures Unhex(s).Some? <==> |s| % 2 == 0 && AllHex(s)
    decreases |s|
  {
    if |s| >= 2 {
      var t := s[2..];
      UnhexDefined(t);
      assert AllHex(s) <==> HexValue(s[0]).Some? && HexValue(s[1]).Some? && AllHex(t) by {
        if HexValue(s[0]).Some? && HexValue(s[1]).Some? && AllHex(t) {
          forall i | 0 <= i < |s| ensures HexValue(s[i]).Some? {
            if i >= 2 {
              assert s[i] == t[i - 2];
            }
          }
        }
        if AllHex(s) {
          forall i | 0 <= i < |t| ensures HexValue(t[i]).Some? {
            assert t[i] == s[i + 2];
          }
        }
      }
    } else if |s| == 1 {
      assert !(|s| % 2 == 0);
    }
  }

  lemma HexDigitValue(n: int)
    requires 0 <= n < 16
    ensures HexValue(HexDigit(n)) == Some(n)
  {
  }

  lemma {:induction false} UnhexHex(bs: seq<byte>)
    ensures Unhex(Hex(bs)) == Some(bs)
  {
    if bs != [] {
      var b := bs[0] as int;
      HexDigitValue(b / 16);
      HexDigitValue(b % 16);
      UnhexHex(bs[1..]);
      var s := Hex(bs);
      assert s[2..] == Hex(bs[1..]);
      assert [(b / 16 * 16 + b % 16) as byte] + bs[1..] == bs;
    }
  }

  /** Every id string the system hands out parses back to the same id. */
  lemma ParseOidStr(o: ObjectId)
    ensures ParseOid(OidStr(o)) == Some(o)
  {
    UnhexHex(o);
  }

  /** Distinct ids have distinct string forms. */
  lemma OidStrInjective(a: ObjectId, b: ObjectId)
    ensures OidStr(a) == OidStr(b) ==> a == b
  {
    ParseOidStr(a);
    ParseOidStr(b);
  }

  lemma NibbleSplit(hi: int, lo: int)
    requires 0 <= hi < 16 && 0 <= lo < 16
    ensures (hi * 16 + lo) / 16 == hi && (hi * 16 + lo) % 16 == lo
  {
  }

  lemma DigitOfValue(c: char)
    requires '0' <= c <= '9' || 'a' <= c <= 'f'
    ensures HexValue(c).Some? && HexDigit(HexValue(c).value) == c
  {
  }

  lemma {:induction false} HexUnhex(s: string, bs: seq<byte>)
    requires IsLowerHex(s) && Unhex(s) == Some(bs)
    ensures Hex(bs) == s
  {
    if s != [] {
      assert |s| >= 2;
      DigitOfValue(s[0]);
      DigitOfValue(s[1]);
      var hi, lo := HexValue(s[0]).value, HexValue(s[1]).value;
      var t := s[2..];
      assert IsLowerHex(t) by {
        forall i | 0 <= i < |t| ensures '0' <= t[i] <= '9' || 'a' <= t[i] <= 'f' {
          assert t[i] == s[i + 2];
        }
      }
      var rest := Unhex(t).value;
      assert bs == [(hi * 16 + lo) as byte] + rest;
      HexUnhex(t, rest);
      NibbleSplit(hi, lo);
      assert Hex(bs) == [HexDigit(hi), HexDigit(lo)] + Hex(rest);
      assert s == [s[0], s[1]] + t;
    }
  }

  /** A lower-case id string that parses is the string form of what it parses to. */
  lemma ParseOidCanonical(s: string)
    requires IsLowerHex(s) && ParseOid(s).Some?
    ensures OidStr(ParseOid(s).value) == s
  {
    HexUnhex(s, ParseOid(s).value);
  }
}
