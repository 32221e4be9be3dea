/** 16-byte identifiers, their text form (section 3 of RFC 4122) and their JSON form. */
module Ids {
  import opened Common

  newtype byte = n: int | 0 <= n < 256

  type ID = b: seq<byte> | |b| == 16 witness seq(16, _ => 0)

  function HexDigit(n: nat): char
    requires n < 16
  {
    if n < 10 then (n + 48) as char else (n + 87) as char
  }

  predicate IsLowerHex(c: char) {
    '0' <= c <= '9' || 'a' <= c <= 'f'
  }

  /** The value of a hexadecimal digit, 255 for any other character. */
  function HexValue(c: char): nat {
    if '0' <= c <= '9' then c as nat - 48
    else if 'a' <= c <= 'f' then c as nat - 87
    else if 'A' <= c <= 'F' then c as nat - 55
    else 255
  }

  function HexPair(b: byte): (s: string)
    ensures |s| == 2
  {
    [HexDigit(b as nat / 16), HexDigit(b as nat % 16)]
  }

  /** The byte that two hexadecimal digits denote. */
  function PairValue(hi: char, lo: char): Option<byte> {
    if HexValue(hi) == 255 || HexValue(lo) == 255 then None
    else Some((16 * HexValue(hi) + HexValue(lo)) as byte)
  }

  function Hex(bs: seq<byte>): (s: string)
    ensures |s| == 2 * |bs|
  {
    if bs == [] then ""
    else HexPair(bs[0]) + Hex(bs[1..])
  }

  function UnHex(s: string): (r: Option<seq<byte>>)
    requires |s| % 2 == 0
    ensures r.Some? ==> |r.value| == |s| / 2
  {
    if s == "" then Some([])
    else
      var first, rest := PairValue(s[0], s[1]), UnHex(s[2..]);
      if first.None? || rest.None? then None else Some([first.value] + rest.value)
  }

  /** The text form: groups of 8, 4, 4, 4 and 12 digits. */
  function String(id: ID): (s: string)
    ensures |s| == 36
  {
    Hex(id[..4]) + "-" + Hex(id[4..6]) + "-" + Hex(id[6..8]) + "-" + Hex(id[8..10]) + "-" + Hex(id[10..])
  }

  /** The hexadecimal digits of a dashed text, without its dashes. */
  function Digits(s: string): (d: string)
    requires |s| == 36
    ensures |d| == 32
  {
    s[0..8] + s[9..13] + s[14..18] + s[19..23] + s[24..36]
  }

  function ParseDashed(s: string): Result<ID>
    requires |s| == 36
  {
    if s[8] != '-' || s[13] != '-' || s[18] != '-' || s[23] != '-' then Err("invalid UUID format")
    else
      match UnHex(Digits(s))
      case None => Err("invalid UUID format")
      case Some(bs) => Ok(bs)
  }

  function Lower(c: char): char {
    if 'A' <= c <= 'Z' then (c as int - 'A' as int + 'a' as int) as char else c
  }

  /** The UUID parser: the plain form, the urn form, a form between two one-character delimiters, and bare digits. */
  function ParseBytes(s: string): Result<ID> {
    if |s| == 36 then ParseDashed(s)
    else if |s| == 45 then
      if seq(9, i requires 0 <= i < 9 => Lower(s[i])) == "urn:uuid:" then ParseDashed(s[9..])
      else Err("invalid urn prefix")
    else if |s| == 38 then ParseDashed(s[1..37])
    else if |s| == 32 then
      match UnHex(s)
      case None => Err("invalid UUID format")
      case Some(bs) => Ok(bs)
    else Err("invalid UUID length")
  }

  function JSON(id: ID): string {
    "\"" + String(id) + "\""
  }

  lemma PairRoundTrip(b: byte)
    ensures PairValue(HexPair(b)[0], HexPair(b)[1]) == Some(b)
  {
    assert forall n: nat :: n < 16 ==> HexValue(HexDigit(n)) == n;
  }

  lemma LowerDigit(c: char)
    requires HexValue(c) != 255
    ensures HexValue(c) < 16 && (HexDigit(HexValue(c)) == c <==> IsLowerHex(c))
  {
  }

  lemma PairCanonical(hi: char, lo: char)
    requires PairValue(hi, lo).Some?
    ensures HexPair(PairValue(hi, lo).value) == [hi, lo] <==> IsLowerHex(hi) && IsLowerHex(lo)
  {
    LowerDigit(hi);
    LowerDigit(lo);
  }

  lemma {:induction false} UnHexOfHex(bs: seq<byte>)
    ensures UnHex(Hex(bs)) == Some(bs)
  {
    if bs != [] {
      UnHexOfHex(bs[1..]);
      PairRoundTrip(bs[0]);
      assert Hex(bs)[2..] == Hex(bs[1..]);
      assert bs == [bs[0]] + bs[1..];
    }
  }

  lemma {:induction false} HexAppend(a: seq<byte>, b: seq<byte>)
    ensures Hex(a + b) == Hex(a) + Hex(b)
  {
    if a == [] {
      assert a + b == b;
    } else {
      HexAppend(a[1..], b);
      var first, rest, tail := HexPair(a[0]), Hex(a[1..]), Hex(b);
      assert (a + b)[0] == a[0] && (a + b)[1..] == a[1..] + b;
      assert Hex(a + b) == first + (rest + tail);
      assert first + (rest + tail) == (first + rest) + tail;
    }
  }

  lemma DigitsOfGroups(a: string, b: string, c: string, d: string, e: string)
    requires |a| == 8 && |b| == |c| == |d| == 4 && |e| == 12
    ensures Digits(a + "-" + b + "-" + c + "-" + d + "-" + e) == a + b + c + d + e
  {
    var s := a + "-" + b + "-" + c + "-" + d + "-" + e;
    assert s[0..8] == a;
    assert s[9..13] == b;
    assert s[14..18] == c;
    assert s[19..23] == d;
    assert s[24..36] == e;
  }

  lemma DigitsOfString(id: ID)
    ensures Digits(String(id)) == Hex(id)
  {
    DigitsOfGroups(Hex(id[..4]), Hex(id[4..6]), Hex(id[6..8]), Hex(id[8..10]), Hex(id[10..]));
    HexAppend(id[..4], id[4..6]);
    assert id[..4] + id[4..6] == id[..6];
    HexAppend(id[..6], id[6..8]);
    assert id[..6] + id[6..8] == id[..8];
    HexAppend(id[..8], id[8..10]);
    assert id[..8] + id[8..10] == id[..10];
    HexAppend(id[..10], id[10..]);
    assert id[..10] + id[10..] == id;
  }

  const HEX_DIGITS: string := "0123456789abcdef"

  /**
   Where the i-th hexadecimal digit stands in the text: behind as many dashes as there are complete groups before it.
   */
  function DigitAt(i: nat): nat {
    i + if i < 8 then 0 else if i < 12 then 1 else if i < 16 then 2 else if i < 20 then 3 else 4
  }

  lemma {:induction false} HexAt(bs: seq<byte>, i: nat)
    requires i < 2 * |bs|
    ensures Hex(bs)[i] == HEX_DIGITS[if i % 2 == 0 then bs[i / 2] as nat / 16 else bs[i / 2] as nat % 16]
  {
    assert forall n: nat :: n < 16 ==> HexDigit(n) == HEX_DIGITS[n];
    if 2 <= i {
      HexAt(bs[1..], i - 2);
      assert Hex(bs)[i] == Hex(bs[1..])[i - 2];
    }
  }

  /**
   The text form, character by character: the bytes in order, each as its high and its low digit in lower case, and
   dashes after the groups of 8, 4, 4 and 4 digits.
   */
  lemma TextForm(id: ID, i: nat)
    requires i < 32
    ensures DigitAt(i) < 36
    ensures String(id)[DigitAt(i)] == HEX_DIGITS[if i % 2 == 0 then id[i / 2] as nat / 16 else id[i / 2] as nat % 16]
    ensures String(id)[8] == String(id)[13] == String(id)[18] == String(id)[23] == '-'
    ensures JSON(id)[0] == JSON(id)[37] == '"' && JSON(id)[1 + DigitAt(i)] == String(id)[DigitAt(i)]
  {
    var s := String(id);
    DigitsOfString(id);
    HexAt(id, i);
    assert Digits(s)[i] == s[DigitAt(i)];
  }

  /** Parsing undoes printing, for the text form and for the quoted JSON form. */
  lemma RoundTrip(id: ID)
    ensures ParseBytes(String(id)) == Ok(id)
    ensures |JSON(id)| == 38 && ParseBytes(JSON(id)) == Ok(id)
  {
    DigitsOfString(id);
    UnHexOfHex(id);
    var s := String(id);
    assert s[8] == '-' && s[13] == '-' && s[18] == '-' && s[23] == '-';
    assert JSON(id)[1..37] == s;
  }

  function LowerAll(s: string): (t: string)
    ensures |t| == |s| && forall i :: 0 <= i < |s| ==> t[i] == Lower(s[i])
  {
    seq(|s|, i requires 0 <= i < |s| => Lower(s[i]))
  }

  lemma PairByDigits(hi: char, lo: char, b: byte)
    ensures PairValue(hi, lo) == Some(b) <==> Lower(hi) == HexPair(b)[0] && Lower(lo) == HexPair(b)[1]
  {
    DigitByValue(hi, b as nat / 16);
    DigitByValue(lo, b as nat % 16);
    if HexValue(hi) != 255 && HexValue(lo) != 255 {
      LowerDigit(hi);
      LowerDigit(lo);
    }
  }

  lemma DigitByValue(c: char, n: nat)
    requires n < 16
    ensures HexValue(c) == n <==> Lower(c) == HexDigit(n)
  {
  }

  lemma {:induction false} UnHexExactly(d: string, bs: seq<byte>)
    requires |d| == 2 * |bs|
    ensures UnHex(d) == Some(bs) <==> LowerAll(d) == Hex(bs)
    decreases |d|
  {
    if bs != [] {
      UnHexExactly(d[2..], bs[1..]);
      PairByDigits(d[0], d[1], bs[0]);
      assert bs == [bs[0]] + bs[1..];
      assert LowerAll(d) == [Lower(d[0]), Lower(d[1])] + LowerAll(d[2..]);
      assert Hex(bs) == HexPair(bs[0]) + Hex(bs[1..]);
      SplitPair(LowerAll(d), Hex(bs));
      assert LowerAll(d)[2..] == LowerAll(d[2..]) && Hex(bs)[2..] == Hex(bs[1..]);
    }
  }

  lemma SplitPair(s: string, t: string)
    requires |s| == |t| >= 2
    ensures s == t <==> s[0] == t[0] && s[1] == t[1] && s[2..] == t[2..]
  {
    assert s == [s[0], s[1]] + s[2..] && t == [t[0], t[1]] + t[2..];
  }

  lemma DigitsOfLower(s: string)
    requires |s| == 36
    ensures Digits(LowerAll(s)) == LowerAll(Digits(s))
  {
  }

  predicate HasDashes(s: string)
    requires |s| == 36
  {
    s[8] == s[13] == s[18] == s[23] == '-'
  }

  lemma DashedExactly(s: string, id: ID)
    requires |s| == 36
    ensures ParseDashed(s) == Ok(id) <==> LowerAll(s) == String(id)
  {
    var t := String(id);
    DigitsOfString(id);
    UnHexExactly(Digits(s), id);
    DigitsOfLower(s);
    assert HasDashes(t);
    assert HasDashes(LowerAll(s)) <==> HasDashes(s);
    if HasDashes(s) {
      DashedByDigits(LowerAll(s), t);
    }
  }

  lemma UrnExactly(s: string, id: ID)
    requires |s| == 45
    ensures ParseBytes(s) == Ok(id) <==> LowerAll(s) == "urn:uuid:" + String(id)
  {
    DashedExactly(s[9..], id);
    var t, urn := LowerAll(s), "urn:uuid:" + String(id);
    assert t == t[..9] + t[9..] && t[9..] == LowerAll(s[9..]);
    assert t[..9] == seq(9, i requires 0 <= i < 9 => Lower(s[i]));
    assert urn[..9] == "urn:uuid:" && urn[9..] == String(id);
  }

  /**
   What the parser accepts, exactly: in either case of its letters, the text of the ID, the text after "urn:uuid:", the
   text between any two characters, or the digits without dashes.
   */
  lemma ParseExactly(s: string, id: ID)
    ensures ParseBytes(s) == Ok(id)
      <==> LowerAll(s) == String(id) || LowerAll(s) == "urn:uuid:" + String(id) || LowerAll(s) == Hex(id)
           || (|s| == 38 && LowerAll(s[1..37]) == String(id))
  {
    if |s| == 36 {
      DashedExactly(s, id);
    } else if |s| == 45 {
      UrnExactly(s, id);
    } else if |s| == 38 {
      DashedExactly(s[1..37], id);
    } else if |s| == 32 {
      UnHexExactly(s, id);
    }
  }

  lemma StringInjective(a: ID, b: ID)
    requires String(a) == String(b)
    ensures a == b
  {
    RoundTrip(a);
    RoundTrip(b);
  }

  lemma JSONInjective(a: ID, b: ID)
    requires JSON(a) == JSON(b)
    ensures a == b
  {
    RoundTrip(a);
    RoundTrip(b);
  }

  predicate AllLowerHex(s: string) {
    forall i :: 0 <= i < |s| ==> IsLowerHex(s[i])
  }

  lemma {:induction false} HexOfUnHex(s: string)
    requires |s| % 2 == 0 && UnHex(s).Some?
    ensures Hex(UnHex(s).value) == s <==> AllLowerHex(s)
  {
    if s != "" {
      HexOfUnHex(s[2..]);
      PairCanonical(s[0], s[1]);
      var bs := UnHex(s).value;
      assert bs[1..] == UnHex(s[2..]).value;
      assert Hex(bs)[..2] == HexPair(bs[0]) && Hex(bs)[2..] == Hex(bs[1..]);
      assert s[..2] == [s[0], s[1]];
      assert s == s[..2] + s[2..] && Hex(bs) == HexPair(bs[0]) + Hex(bs[1..]);
      assert AllLowerHex(s) <==> AllLowerHex(s[..2]) && AllLowerHex(s[2..]) by {
        assert forall i :: 2 <= i < |s| ==> s[i] == s[2..][i - 2];
      }
    }
  }

  /** A dashed text is its digits with the dashes put back. */
  lemma DashedByDigits(s: string, t: string)
    requires |s| == |t| == 36
    requires s[8] == s[13] == s[18] == s[23] == '-' && t[8] == t[13] == t[18] == t[23] == '-'
    ensures s == t <==> Digits(s) == Digits(t)
  {
    if Digits(s) == Digits(t) {
      var d := Digits(s);
      forall i | 0 <= i < 36 ensures s[i] == t[i] {
        if i < 8 { assert s[i] == d[i] == t[i]; }
        else if 8 < i < 13 { assert s[i] == d[i - 1] == t[i]; }
        else if 13 < i < 18 { assert s[i] == d[i - 2] == t[i]; }
        else if 18 < i < 23 { assert s[i] == d[i - 3] == t[i]; }
        else if 23 < i { assert s[i] == d[i - 4] == t[i]; }
      }
    }
  }

  /** Printing undoes parsing of a 38-character JSON value exactly when it is quoted and its digits are lower case. */
  lemma PrintUndoesParse(data: string)
    requires |data| == 38 && ParseBytes(data).Ok?
    ensures JSON(ParseBytes(data).value) == data
            <==> data[0] == '"' && data[37] == '"' && AllLowerHex(Digits(data[1..37]))
  {
    var t := data[1..37];
    var id := ParseBytes(data).value;
    var s := String(id);
    DigitsOfString(id);
    HexOfUnHex(Digits(t));
    DashedByDigits(s, t);
    assert JSON(id)[1..37] == s && JSON(id)[0] == '"' && JSON(id)[37] == '"';
    assert data == [data[0]] + t + [data[37]];
  }

  /** MarshalJSON: a buffer two longer than the text, quotes at its ends, the text copied between. */
  method MarshalJSON(id: ID) returns (buff: array<char>)
    ensures fresh(buff) && buff[..] == JSON(id)
  {
    var str := String(id);
    buff := new char[|str| + 2](_ => ' ');
    buff[0] := '"';
    forall i | 0 <= i < |str| {
      buff[1 + i] := str[i];
    }
    buff[buff.Length - 1] := '"';
  }

  /** The receiver of UnmarshalJSON. */
  class Target {
    var id: ID

    constructor (id: ID)
      ensures this.id == id
    {
      this.id := id;
    }

    method UnmarshalJSON(data: string) returns (r: Result<()>)
      modifies this
      ensures r.Ok? <==> ParseBytes(data).Ok?
      ensures id == if r.Ok? then ParseBytes(data).value else old(id)
    {
      var u := ParseBytes(data);
      if u.Err? {
        return Err(u.error);
      }
      id := u.value;
      return Ok(());
    }
  }
}
