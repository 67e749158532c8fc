/** The unit address in a device-tree node name, as in `uart@10000000`. */
module UnitAddresses {
  import opened Base

  /** What follows the last '@', if there is one. */
  function AfterAt(name: string): Option<string> {
    if name == "" then None else
    var front, last := name[..|name| - 1], name[|name| - 1];
    if last == '@' then Some("") else
    match AfterAt(front)
    case None => None
    case Some(tail) => Some(tail + [last])
  }

  /** Every leading "0x" goes, not only the first. */
  function TrimPrefix(s: string): string {
    if |s| >= 2 && s[0] == '0' && s[1] == 'x' then TrimPrefix(s[2..]) else s
  }

  function DigitValue(c: char): Option<nat> {
    if '0' <= c <= '9' then Some(c as nat - '0' as nat)
    else if 'a' <= c <= 'f' then Some(c as nat - 'a' as nat + 10)
    else if 'A' <= c <= 'F' then Some(c as nat - 'A' as nat + 10)
    else None
  }

  /** Digits with an overflow check at each one. */
  function Digits(s: string): Option<u64> {
    if s == "" then Some(0) else
    match (Digits(s[..|s| - 1]), DigitValue(s[|s| - 1]))
    case (Some(high), Some(low)) => if 16 * high + low < TWO64 then Some(16 * high + low) else None
    case _ => None
  }

  /** The library's radix parser: at least one digit, behind at most one '+'. */
  function FromHex(s: string): Option<u64> {
    var digits := if s != "" && s[0] == '+' then s[1..] else s;
    if digits == "" then None else Digits(digits)
  }

  function UnitAddr(name: string): Option<u64> {
    match AfterAt(name)
    case None => None
    case Some(suffix) => FromHex(TrimPrefix(suffix))
  }

  // ---- Writing an address and reading it back ----

  function HexDigit(d: nat): char
    requires d < 16
  {
    if d < 10 then '0' + d as char else 'a' + (d - 10) as char
  }

  function Hex(n: nat): (s: string)
    ensures s != "" && forall i :: 0 <= i < |s| ==> DigitValue(s[i]).Some?
  {
    if n < 16 then [HexDigit(n)] else Hex(n / 16) + [HexDigit(n % 16)]
  }

  lemma {:induction false} DigitsOfHex(n: nat)
    ensures Digits(Hex(n)) == if n < TWO64 then Some(n) else None
  {
    if n < 16 {
      assert Hex(n)[..0] == "";
    } else {
      DigitsOfHex(n / 16);
      assert Hex(n)[..|Hex(n)| - 1] == Hex(n / 16);
    }
  }

  lemma {:induction false} AfterAtOf(prefix: string, suffix: string)
    requires '@' !in suffix
    ensures AfterAt(prefix + "@" + suffix) == Some(suffix)
    decreases |suffix|
  {
    var name := prefix + "@" + suffix;
    if suffix != "" {
      var n := |suffix| - 1;
      assert name[..|name| - 1] == prefix + "@" + suffix[..n];
      AfterAtOf(prefix, suffix[..n]);
      assert suffix == suffix[..n] + [suffix[n]];
    }
  }

  lemma {:induction false} NoAt(name: string)
    ensures AfterAt(name) == None <==> '@' !in name
  {
    if name != "" {
      NoAt(name[..|name| - 1]);
      assert name == name[..|name| - 1] + [name[|name| - 1]];
    }
  }

  lemma HexReadsBack(h: string, n: nat)
    requires h == Hex(n)
    ensures '@' !in h && TrimPrefix(h) == h && TrimPrefix("0x" + h) == h
    ensures FromHex(h) == if n < TWO64 then Some(n) else None
  {
    assert forall i :: 0 <= i < |h| ==> h[i] != '@' && h[i] != 'x' && h[i] != '+';
    var p := "0x" + h;
    assert p[2..] == h && p[0] == '0' && p[1] == 'x';
    DigitsOfHex(n);
  }

  lemma SuffixDecides(prefix: string, suffix: string)
    requires '@' !in suffix
    ensures UnitAddr(prefix + "@" + suffix) == FromHex(TrimPrefix(suffix))
  {
    AfterAtOf(prefix, suffix);
  }

  /**
   A name with an address in hexadecimal, with or without "0x", gives that
   address back when it fits 64 bits and none otherwise, whatever comes
   before the last '@'.
   */
  lemma UnitAddrReadsBack(prefix: string, n: nat)
    ensures UnitAddr(prefix + "@" + Hex(n)) == if n < TWO64 then Some(n) else None
    ensures UnitAddr(prefix + "@" + ("0x" + Hex(n))) == UnitAddr(prefix + "@" + Hex(n))
  {
    var h := Hex(n);
    HexReadsBack(h, n);
    SuffixDecides(prefix, h);
    SuffixDecides(prefix, "0x" + h);
  }

  /** No '@', no address. */
  lemma NoUnitAddr(name: string)
    requires '@' !in name
    ensures UnitAddr(name) == None
  {
    NoAt(name);
  }

  // ---- Other spellings ----

  function UpperChar(c: char): char {
    if 'a' <= c <= 'f' then 'A' + (c - 'a') else c
  }

  function Upper(s: string): string {
    seq(|s|, i requires 0 <= i < |s| => UpperChar(s[i]))
  }

  /** The digits, small and capital. */
  lemma SixteenDigits(d: nat)
    requires d < 16
    ensures DigitValue("0123456789abcdef"[d]) == Some(d) && DigitValue("0123456789ABCDEF"[d]) == Some(d)
  {
  }

  lemma UpperCounts(c: char)
    ensures DigitValue(UpperChar(c)) == DigitValue(c)
  {
  }

  /** Capital digits count like the small ones. */
  lemma {:induction false} CapitalsReadAlike(s: string)
    ensures Digits(Upper(s)) == Digits(s)
    decreases |s|
  {
    if s != "" {
      var n := |s| - 1;
      CapitalsReadAlike(s[..n]);
      UpperCounts(s[n]);
      assert Upper(s)[..n] == Upper(s[..n]);
    }
  }

  /** A zero in front does not matter. */
  lemma {:induction false} LeadingZero(s: string)
    ensures Digits("0" + s) == Digits(s)
    decreases |s|
  {
    var t := "0" + s;
    if s == "" {
      assert t[..0] == "" && t == "0";
    } else {
      LeadingZero(s[..|s| - 1]);
      assert t[..|t| - 1] == "0" + s[..|s| - 1];
    }
  }

  /** Anything but a digit spoils the address. */
  lemma {:induction false} SpoiledDigits(s: string, i: nat)
    requires i < |s| && DigitValue(s[i]).None?
    ensures Digits(s) == None
    decreases |s|
  {
    if i < |s| - 1 {
      SpoiledDigits(s[..|s| - 1], i);
    }
  }

  /** "0x" may be repeated, and one "+" may follow. */
  lemma PrefixesIgnored(prefix: string, n: nat)
    ensures UnitAddr(prefix + "@" + ("0x" + ("0x" + Hex(n)))) == UnitAddr(prefix + "@" + Hex(n))
    ensures UnitAddr(prefix + "@" + ("+" + Hex(n))) == UnitAddr(prefix + "@" + Hex(n))
  {
    var h := Hex(n);
    HexReadsBack(h, n);
    PrefixTwice(h);
    SuffixDecides(prefix, "0x" + ("0x" + h));
    SuffixDecides(prefix, h);
    SuffixDecides(prefix, "+" + h);
    assert ("+" + h)[1..] == h;
  }

  lemma PrefixTwice(h: string)
    requires TrimPrefix("0x" + h) == h
    ensures TrimPrefix("0x" + ("0x" + h)) == h
  {
    var t := "0x" + ("0x" + h);
    assert t[2..] == "0x" + h && t[0] == '0' && t[1] == 'x';
  }

  /** Nothing behind the '@', or nothing but a prefix, is no address. */
  lemma EmptyAddress(prefix: string)
    ensures UnitAddr(prefix + "@" + "") == None && UnitAddr(prefix + "@" + "0x") == None
    ensures UnitAddr(prefix + "@" + "+") == None
  {
    SuffixDecides(prefix, "");
    SuffixDecides(prefix, "0x");
    SuffixDecides(prefix, "+");
    assert "0x"[2..] == "" && "+"[1..] == "";
  }
}
