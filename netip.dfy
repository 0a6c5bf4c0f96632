/** IP literals as Go's `net.ParseIP` and `net.IP.To4` treat them. IPv4
    dotted quads are parsed here in full; the IPv6 text parser is a
    parameter `v6` constrained by `IPv6Parser`. */
module NetIP {
  import opened Common
  import opened Text

  /** A `net.IP`: 16 bytes from `ParseIP`, 4 bytes from `To4`, and the empty
      slice for Go's nil. */
  type IP = seq<Byte>

  /** The first twelve bytes of an IPv4 address held in IPv6 form. */
  const V4InV6Prefix: seq<Byte> := [0, 0, 0, 0, 0, 0, 0, 0, 0, 0, 0xff, 0xff]

  /** What the model assumes of Go's IPv6 text parser: it yields 16 bytes
      and never accepts white space. */
  ghost predicate IPv6Parser(v6: string -> Option<IP>)
  {
    forall s :: v6(s).Some? ==> |v6(s).value| == 16 && NoSpace(s)
  }

  predicate IsDigit(c: char)
  {
    '0' <= c <= '9'
  }

  predicate AllDigits(f: string)
  {
    forall k :: 0 <= k < |f| ==> IsDigit(f[k])
  }

  /** The decimal value of a string of digits. */
  function DigitsValue(f: string): nat
    requires AllDigits(f)
  {
    if f == [] then 0 else DigitsValue(f[..|f| - 1]) * 10 + (f[|f| - 1] as int - '0' as int)
  }

  /** One field of a dotted quad: at least one digit, no leading zero
      unless the field is "0", value at most 255. */
  function ParseOctet(f: string): (r: Option<Byte>)
    ensures r.Some? ==> f != [] && AllDigits(f) && |f| <= 3
  {
    if f != [] && AllDigits(f) && (|f| == 1 || f[0] != '0') && DigitsValue(f) <= 255
    then
      DigitsBound(f);
      Some(DigitsValue(f))
    else None
  }

  /** Only the shortest decimal spelling of a byte is accepted. */
  lemma ParseOctetCanonical(f: string)
    ensures ParseOctet(f).Some? ==> f == Decimal(ParseOctet(f).value)
  {
    if ParseOctet(f).Some? {
      DecimalOfDigits(f);
    }
  }

  /** A dotted quad, returned in the 16-byte form `net.ParseIP` gives: four
      dot-separated fields of one to three digits, so 7 to 15 characters. */
  function ParseIPv4(s: string): (r: Option<IP>)
    ensures r.Some? ==> |r.value| == 16 && r.value[..12] == V4InV6Prefix && 7 <= |s| <= 15
  {
    var f := Split(s, '.');
    if |f| == 4 && ParseOctet(f[0]).Some? && ParseOctet(f[1]).Some?
       && ParseOctet(f[2]).Some? && ParseOctet(f[3]).Some?
    then
      JoinSplit(s, '.');
      JoinFourLength(f, '.');
      Some(V4InV6Prefix + [ParseOctet(f[0]).value, ParseOctet(f[1]).value,
                           ParseOctet(f[2]).value, ParseOctet(f[3]).value])
    else None
  }

  lemma JoinFourLength(f: seq<string>, sep: char)
    requires |f| == 4
    ensures |Join(f, sep)| == |f[0]| + |f[1]| + |f[2]| + |f[3]| + 3
  {
    JoinFour(f, sep);
  }

  /** Four pieces joined: the pieces with a separator between each pair. */
  lemma JoinFour(f: seq<string>, sep: char)
    requires |f| == 4
    ensures Join(f, sep) == f[0] + [sep] + f[1] + [sep] + f[2] + [sep] + f[3]
  {
    assert f[1..][1..] == f[2..] && f[2..][1..] == f[3..];
    assert Join(f[3..], sep) == f[3];
    assert Join(f[2..], sep) == f[2] + [sep] + f[3];
    assert Join(f[1..], sep) == f[1] + [sep] + Join(f[2..], sep);
  }

  /** The converse of `ParseDottedQuad`: only the canonical spelling of
      four bytes is accepted, so four fields, decimal, at most 255, with no
      leading zero. */
  lemma ParseIPv4Canonical(s: string)
    ensures ParseIPv4(s).Some? ==>
              var ip := ParseIPv4(s).value;
              s == DottedQuad(ip[12], ip[13], ip[14], ip[15])
  {
    if ParseIPv4(s).Some? {
      var f := Split(s, '.');
      JoinSplit(s, '.');
      ParseOctetCanonical(f[0]);
      ParseOctetCanonical(f[1]);
      ParseOctetCanonical(f[2]);
      ParseOctetCanonical(f[3]);
      assert f == [f[0], f[1], f[2], f[3]];
    }
  }

  predicate IsSpecial(c: char)
  {
    c == '.' || c == ':' || c == '%'
  }

  /** The first '.', ':' or '%' in `s`: the character by which the parser
      decides between IPv4, IPv6 and a zone without an address. */
  function FirstSpecial(s: string): Option<char>
  {
    if s == [] then None else if IsSpecial(s[0]) then Some(s[0]) else FirstSpecial(s[1..])
  }

  /** `net.ParseIP(s)`; `None` stands for Go's nil. A literal that is not
      handed to the IPv6 parser is accepted only as the canonical dotted
      quad of its last four bytes; one with neither '.' nor ':' before any
      '%' is rejected. */
  function ParseIP(s: string, v6: string -> Option<IP>): (r: Option<IP>)
    ensures r.Some? && FirstSpecial(s) != Some(':') ==>
              FirstSpecial(s) == Some('.') && |r.value| == 16 && r.value[..12] == V4InV6Prefix
    ensures FirstSpecial(s) == Some(':') ==> r == v6(s)
  {
    match FirstSpecial(s)
    case Some('.') => ParseIPv4(s)
    case Some(':') => v6(s)
    case _ => None
  }

  /** `net.IP.To4`: the four bytes of an IPv4 address, or nil. */
  function To4(ip: IP): (r: IP)
    ensures |r| == 4 || r == []
  {
    if |ip| == 4 then ip
    else if |ip| == 16 && ip[..12] == V4InV6Prefix then ip[12..]
    else []
  }

  /** Every accepted literal comes back in 16-byte form and had no white
      space in it. */
  lemma ParseIPShape(s: string, v6: string -> Option<IP>)
    requires IPv6Parser(v6)
    ensures ParseIP(s, v6).Some? ==> |ParseIP(s, v6).value| == 16 && NoSpace(s)
  {
    if FirstSpecial(s) == Some('.') && ParseIPv4(s).Some? {
      var f := Split(s, '.');
      JoinSplit(s, '.');
      forall i | 0 <= i < |f| ensures NoSpace(f[i]) {
        assert AllDigits(f[i]);
      }
      JoinNoSpace(f, '.');
    }
  }

  lemma {:induction false} JoinNoSpace(pieces: seq<string>, sep: char)
    requires !IsSpace(sep)
    requires forall i :: 0 <= i < |pieces| ==> NoSpace(pieces[i])
    ensures NoSpace(Join(pieces, sep))
  {
    if |pieces| > 1 {
      JoinNoSpace(pieces[1..], sep);
      var t := Join(pieces[1..], sep);
      assert Join(pieces, sep) == pieces[0] + [sep] + t;
    }
  }

  /** A literal with white space in it, such as one with blanks around it,
      is rejected. */
  lemma SpacedLiteralRejected(s: string, v6: string -> Option<IP>)
    requires IPv6Parser(v6)
    requires !NoSpace(s)
    ensures ParseIP(s, v6) == None
  {
    ParseIPShape(s, v6);
  }

  /** An IPv6 literal that is not an IPv4 address in disguise is accepted,
      but `To4` turns it into nil. */
  lemma IPv6LiteralHasNoTo4(s: string, v6: string -> Option<IP>)
    requires IPv6Parser(v6)
    requires FirstSpecial(s) == Some(':')
    requires v6(s).Some? && v6(s).value[..12] != V4InV6Prefix
    ensures ParseIP(s, v6).Some? && To4(ParseIP(s, v6).value) == []
  {
  }

  /** `To4` of the 16-byte form of an IPv4 address gives its four bytes. */
  lemma To4OfMapped(a: Byte, b: Byte, c: Byte, d: Byte)
    ensures To4(V4InV6Prefix + [a, b, c, d]) == [a, b, c, d]
  {
    var ip := V4InV6Prefix + [a, b, c, d];
    assert ip[..12] == V4InV6Prefix;
    assert ip[12..] == [a, b, c, d];
  }

  // ---------------------------------------------------- formatting, inverse

  /** The shortest decimal spelling of `n`. */
  function Decimal(n: nat): (r: string)
    ensures r != [] && AllDigits(r)
  {
    if n < 10 then [('0' as int + n) as char]
    else Decimal(n / 10) + [('0' as int + n % 10) as char]
  }

  lemma {:induction false} DecimalValue(n: nat)
    ensures DigitsValue(Decimal(n)) == n
    ensures |Decimal(n)| == 1 || Decimal(n)[0] != '0'
  {
    if n >= 10 {
      DecimalValue(n / 10);
      var d := Decimal(n);
      assert d[..|d| - 1] == Decimal(n / 10);
      assert d[0] == Decimal(n / 10)[0];
    }
  }

  /** A digit string of four or more digits with no leading zero is at
      least 1000. */
  lemma DigitsBound(f: string)
    requires f != [] && AllDigits(f) && (|f| == 1 || f[0] != '0')
    ensures |f| >= 4 ==> DigitsValue(f) >= 1000
  {
    if |f| >= 4 {
      var p := f[..|f| - 1];
      var q := p[..|p| - 1];
      var r := q[..|q| - 1];
      assert r[0] == f[0];
      DigitsPositive(r);
      assert DigitsValue(q) >= DigitsValue(r) * 10;
      assert DigitsValue(p) >= DigitsValue(q) * 10;
      assert DigitsValue(f) >= DigitsValue(p) * 10;
    }
  }

  /** A non-empty digit string that does not start with '0' has a
      positive value. */
  lemma {:induction false} DigitsPositive(f: string)
    requires f != [] && AllDigits(f) && f[0] != '0'
    ensures DigitsValue(f) >= 1
    decreases |f|
  {
    if |f| > 1 {
      DigitsPositive(f[..|f| - 1]);
    }
  }

  /** A digit string with no leading zero is the shortest spelling of its
      value. */
  lemma {:induction false} DecimalOfDigits(f: string)
    requires f != [] && AllDigits(f) && (|f| == 1 || f[0] != '0')
    ensures Decimal(DigitsValue(f)) == f
    decreases |f|
  {
    if |f| > 1 {
      var p := f[..|f| - 1];
      DigitsPositive(p);
      DecimalOfDigits(p);
      var n := DigitsValue(f);
      assert n / 10 == DigitsValue(p) && n % 10 == f[|f| - 1] as int - '0' as int;
      assert f == p + [f[|f| - 1]];
    }
  }

  lemma ParseOctetDecimal(n: Byte)
    ensures ParseOctet(Decimal(n)) == Some(n)
  {
    DecimalValue(n);
  }

  /** `a.b.c.d` in dotted-quad notation. */
  function DottedQuad(a: Byte, b: Byte, c: Byte, d: Byte): string
  {
    Join([Decimal(a), Decimal(b), Decimal(c), Decimal(d)], '.')
  }

  lemma {:induction false} FirstSpecialSkip(p: string, rest: string)
    requires forall k :: 0 <= k < |p| ==> !IsSpecial(p[k])
    ensures FirstSpecial(p + rest) == FirstSpecial(rest)
  {
    if p != [] {
      assert (p + rest)[1..] == p[1..] + rest;
      FirstSpecialSkip(p[1..], rest);
    } else {
      assert p + rest == rest;
    }
  }

  /** Round trip: parsing the dotted quad of four bytes gives those bytes,
      in 16-byte form. */
  lemma ParseDottedQuad(a: Byte, b: Byte, c: Byte, d: Byte, v6: string -> Option<IP>)
    ensures ParseIP(DottedQuad(a, b, c, d), v6) == Some(V4InV6Prefix + [a, b, c, d])
  {
    var f := [Decimal(a), Decimal(b), Decimal(c), Decimal(d)];
    forall i | 0 <= i < 4 ensures '.' !in f[i] {
      assert AllDigits(f[i]);
    }
    SplitJoin(f, '.');
    var s := DottedQuad(a, b, c, d);
    var tail := Join(f[1..], '.');
    assert s == f[0] + (['.'] + tail);
    FirstSpecialSkip(f[0], ['.'] + tail);
    ParseOctetDecimal(a);
    ParseOctetDecimal(b);
    ParseOctetDecimal(c);
    ParseOctetDecimal(d);
  }
}
