/** Texts of IPv4 and IPv6 addresses: section 2.2 of RFC 4291, sections 4.2.2 and 4.2.3 of
RFC 5952. Strings carry no terminating NUL here.
*/
module InetText {

  datatype Option<T> = None | Some(value: T)

  type Byte = x: int | 0 <= x < 0x100
  type Word = x: int | 0 <= x < 0x1_0000

  // -- Numbers --------------------------------------------------------------------------

  predicate IsDigit(c: char) { '0' <= c <= '9' }

  predicate IsHex(c: char) { '0' <= c <= '9' || 'a' <= c <= 'f' || 'A' <= c <= 'F' }

  function HexValue(c: char): (v: int)
    requires IsHex(c)
    ensures 0 <= v < 16
  {
    if '0' <= c <= '9' then (c as int) - ('0' as int)
    else if 'a' <= c <= 'f' then (c as int) - ('a' as int) + 10
    else (c as int) - ('A' as int) + 10
  }

  function Digit(d: int): (c: char)
    requires 0 <= d < 16
    ensures IsHex(c) && HexValue(c) == d && (d < 10 <==> IsDigit(c))
  {
    if d < 10 then (('0' as int) + d) as char else (('a' as int) + d - 10) as char
  }

  // %u
  function Decimal(n: Byte): (s: string)
    ensures |s| == if n < 10 then 1 else if n < 100 then 2 else 3
    ensures forall i :: 0 <= i < |s| ==> IsDigit(s[i])
  {
    if n < 10 then [Digit(n)] else Decimal(n / 10) + [Digit(n % 10)]
  }

  // %x
  function Hex(n: Word): (s: string)
    ensures |s| == if n < 16 then 1 else if n < 256 then 2 else if n < 4096 then 3 else 4
    ensures forall i :: 0 <= i < |s| ==> IsHex(s[i])
  {
    if n < 16 then [Digit(n)] else Hex(n / 16) + [Digit(n % 16)]
  }

  predicate IsGroup(s: string) {
    1 <= |s| <= 4 && forall i :: 0 <= i < |s| ==> IsHex(s[i])
  }

  function GroupValue(s: string): (v: nat)
    requires forall i :: 0 <= i < |s| ==> IsHex(s[i])
  {
    if s == "" then 0 else GroupValue(s[..|s| - 1]) * 16 + HexValue(s[|s| - 1])
  }

  lemma {:induction false} GroupBound(s: string)
    requires |s| <= 4 && forall i :: 0 <= i < |s| ==> IsHex(s[i])
    ensures GroupValue(s) < if |s| == 0 then 1 else if |s| == 1 then 16 else if |s| == 2 then 256
                            else if |s| == 3 then 4096 else 65536
  {
    if s != "" {
      GroupBound(s[..|s| - 1]);
    }
  }

  lemma {:induction false} GroupValueHex(n: Word)
    ensures GroupValue(Hex(n)) == n
  {
    var s := Hex(n);
    if n < 16 {
      assert s[..0] == "";
    } else {
      GroupValueHex(n / 16);
      assert s[..|s| - 1] == Hex(n / 16);
    }
  }

  function GroupBytes(s: string): (b: seq<Byte>)
    requires IsGroup(s)
    ensures |b| == 2
  {
    GroupBound(s);
    [GroupValue(s) / 256, GroupValue(s) % 256]
  }

  // -- IPv4 -----------------------------------------------------------------------------

  function Text4(q: seq<Byte>): string
    requires |q| == 4
  {
    Decimal(q[0]) + ("." + (Decimal(q[1]) + ("." + (Decimal(q[2]) + ("." + Decimal(q[3]))))))
  }

  ghost predicate Denotes4(s: string, q: seq<Byte>) {
    |q| == 4 && s == Text4(q)
  }

  // The loop of inet_pton4: `octets` are finished, `val` is the last one, of which a digit
  // was seen if `saw`.
  function Parse4(s: string, octets: seq<Byte>, val: Byte, saw: bool): Option<seq<Byte>>
    decreases |s|
  {
    if s == "" then
      if |octets| + (if saw then 1 else 0) < 4 then None else Some(octets + [val])
    else if IsDigit(s[0]) then
      var nw := val * 10 + HexValue(s[0]);
      if (saw && val == 0) || nw > 255 || (!saw && |octets| + 1 > 4) then None
      else Parse4(s[1..], octets, nw, true)
    else if s[0] == '.' && saw then
      if |octets| + 1 == 4 then None else Parse4(s[1..], octets + [val], 0, false)
    else None
  }

  // The finished octets with their dots.
  function Dotted(octets: seq<Byte>): string {
    if octets == [] then "" else Dotted(octets[..|octets| - 1]) + Decimal(octets[|octets| - 1]) + "."
  }

  lemma {:induction false} DottedText(q: seq<Byte>)
    requires |q| == 4
    ensures Text4(q) == Dotted(q[..3]) + Decimal(q[3])
  {
    assert q[..3][..2] == q[..2] && q[..2][..1] == q[..1] && q[..1][..0] == [];
    assert Dotted(q[..1]) == Decimal(q[0]) + ".";
    assert Dotted(q[..2]) == Decimal(q[0]) + "." + Decimal(q[1]) + ".";
  }

  // What inet_pton4 has read: finished octets and, after a digit, a part of the next.
  function Read4(octets: seq<Byte>, val: Byte, saw: bool): string {
    Dotted(octets) + if saw then Decimal(val) else ""
  }

  lemma {:induction false} Parse4Sound(s: string, octets: seq<Byte>, val: Byte, saw: bool)
    requires |octets| <= 3 && (!saw ==> val == 0)
    ensures var r := Parse4(s, octets, val, saw);
      r.Some? ==> |r.value| == 4 && Read4(octets, val, saw) + s == Text4(r.value)
    decreases |s|
  {
    var r := Parse4(s, octets, val, saw);
    if r.Some? {
      if s == "" {
        DottedText(r.value);
        assert r.value[..3] == octets;
      } else if IsDigit(s[0]) {
        Parse4Sound(s[1..], octets, val * 10 + HexValue(s[0]), true);
        MoreDigits(val, saw, s[0]);
        Shifted(Read4(octets, val, saw), s, Read4(octets, val * 10 + HexValue(s[0]), true));
      } else {
        Parse4Sound(s[1..], octets + [val], 0, false);
        assert (octets + [val])[..|octets|] == octets;
        Shifted(Read4(octets, val, saw), s, Read4(octets + [val], 0, false));
      }
    }
  }

  lemma {:induction false} Shifted(a: string, s: string, b: string)
    requires s != "" && b == a + [s[0]]
    ensures b + s[1..] == a + s
  {}

  lemma {:induction false} MoreDigits(val: Byte, saw: bool, c: char)
    requires IsDigit(c) && val * 10 + HexValue(c) < 256 && (saw ==> val != 0) && (!saw ==> val == 0)
    ensures Decimal(val * 10 + HexValue(c)) == (if saw then Decimal(val) else "") + [c]
  {
    var nw := val * 10 + HexValue(c);
    assert nw / 10 == val && nw % 10 == HexValue(c) && Digit(HexValue(c)) == c;
  }

  // Reading the digits of a number printed.
  lemma {:induction false} ReadDecimal(n: Byte, s: string, octets: seq<Byte>)
    requires |octets| <= 3
    ensures Parse4(Decimal(n) + s, octets, 0, false) == Parse4(s, octets, n, true)
  {
    var c := Digit(n % 10);
    assert ([c] + s)[1..] == s;
    if n >= 10 {
      ReadDecimal(n / 10, [c] + s, octets);
      assert Decimal(n) + s == Decimal(n / 10) + ([c] + s);
    }
  }

  lemma {:induction false} ReadOctet(q: seq<Byte>, k: nat, s: string)
    requires |q| == 4 && k < 3
    ensures Parse4(Decimal(q[k]) + ("." + s), q[..k], 0, false) == Parse4(s, q[..k + 1], 0, false)
  {
    ReadDecimal(q[k], "." + s, q[..k]);
    assert ("." + s)[1..] == s;
    assert q[..k] + [q[k]] == q[..k + 1];
  }

  lemma {:induction false} Parse4Complete(q: seq<Byte>)
    requires |q| == 4
    ensures Parse4(Text4(q), [], 0, false) == Some(q)
  {
    var t3 := Decimal(q[3]);
    var t2 := Decimal(q[2]) + ("." + t3);
    var t1 := Decimal(q[1]) + ("." + t2);
    assert q[..0] == [];
    ReadOctet(q, 0, t1);
    ReadOctet(q, 1, t2);
    ReadOctet(q, 2, t3);
    assert t3 + "" == t3;
    ReadDecimal(q[3], "", q[..3]);
    assert q[..3] + [q[3]] == q;
  }

  // The parser accepts exactly what the printer prints, with the value printed.
  lemma {:induction false} Parse4Exact(s: string, q: seq<Byte>)
    ensures Parse4(s, [], 0, false) == Some(q) <==> Denotes4(s, q)
  {
    Parse4Sound(s, [], 0, false);
    if |q| == 4 {
      Parse4Complete(q);
    }
  }

  // -- IPv6 -----------------------------------------------------------------------------

  function Zeros(n: nat): (z: seq<Byte>)
    ensures |z| == n
  {
    if n == 0 then [] else [0] + Zeros(n - 1)
  }

  // Groups separated by colons; an IPv4 text may be the last one.
  datatype Row = End | Group(g: string, rest: Row) | Mixed(q: seq<Byte>)

  // A double colon stands for at least one zero group; nothing mixed comes before it.
  datatype Address = Plain(row: Row) | Double(before: Row, after: Row)

  predicate RowOk(r: Row, mixed: bool) {
    match r
    case End => true
    case Group(g, rest) => IsGroup(g) && RowOk(rest, mixed)
    case Mixed(q) => mixed && |q| == 4
  }

  function RowText(r: Row): (s: string)
    requires RowOk(r, true)
    ensures s != "" <==> !r.End?
  {
    match r
    case End => ""
    case Group(g, rest) => if rest.End? then g else g + (":" + RowText(rest))
    case Mixed(q) => Text4(q)
  }

  function RowBytes(r: Row): (b: seq<Byte>)
    requires RowOk(r, true)
    ensures |b| % 2 == 0 && (b == [] <==> r.End?)
  {
    match r
    case End => []
    case Group(g, rest) => GroupBytes(g) + RowBytes(rest)
    case Mixed(q) => q
  }

  lemma {:induction false} RowOkMixed(r: Row)
    requires RowOk(r, false)
    ensures RowOk(r, true)
  {
    if r.Group? {
      RowOkMixed(r.rest);
    }
  }

  predicate AddressOk(a: Address) {
    match a
    case Plain(row) => RowOk(row, true) && |RowBytes(row)| == 16
    case Double(before, after) =>
      RowOk(before, false) && RowOk(before, true) && RowOk(after, true) && |RowBytes(before)| + |RowBytes(after)| <= 14
  }

  function AddressText(a: Address): string
    requires AddressOk(a)
  {
    match a
    case Plain(row) => RowText(row)
    case Double(before, after) => RowText(before) + ("::" + RowText(after))
  }

  function AddressBytes(a: Address): (v: seq<Byte>)
    requires AddressOk(a)
    ensures |v| == 16
  {
    match a
    case Plain(row) => RowBytes(row)
    case Double(before, after) =>
      RowBytes(before) + Zeros(16 - |RowBytes(before)| - |RowBytes(after)|) + RowBytes(after)
  }

  // s is a text of the address v.
  ghost predicate Denotes6(s: string, v: seq<Byte>) {
    exists a :: AddressOk(a) && s == AddressText(a) && v == AddressBytes(a)
  }

  // Length of the leading run of hexadecimal digits.
  function HexRun(s: string): (n: nat)
    ensures n <= |s| && (forall i :: 0 <= i < n ==> IsHex(s[i])) && (n < |s| ==> !IsHex(s[n]))
  {
    if s == "" || !IsHex(s[0]) then 0 else 1 + HexRun(s[1..])
  }

  lemma {:induction false} HexRunIs(s: string, n: nat)
    requires n <= |s| && (forall i :: 0 <= i < n ==> IsHex(s[i])) && (n < |s| ==> !IsHex(s[n]))
    ensures HexRun(s) == n
  {}

  // What inet_pton6 does with its bytes at the end: `colon` is the position of the double
  // colon or -1.
  function Finish(bytes: seq<Byte>, colon: int): Option<seq<Byte>>
    requires -1 <= colon <= |bytes| <= 16
  {
    if colon == -1 then
      if |bytes| == 16 then Some(bytes) else None
    else if |bytes| == 16 then None
    else Some(bytes[..colon] + Zeros(16 - |bytes|) + bytes[colon..])
  }

  // The loop of inet_pton6 from the start of a token.
  function Parse6(s: string, bytes: seq<Byte>, colon: int): Option<seq<Byte>>
    requires -1 <= colon <= |bytes| <= 16
    decreases |s|
  {
    var n := HexRun(s);
    if n > 4 then None
    else if n == |s| then
      if n == 0 then Finish(bytes, colon)
      else if |bytes| + 2 > 16 then None
      else Finish(bytes + GroupBytes(s), colon)
    else if s[n] == ':' then
      if n == 0 then
        if colon != -1 then None else Parse6(s[1..], bytes, |bytes|)
      else if n + 1 == |s| || |bytes| + 2 > 16 then None
      else Parse6(s[n + 1..], bytes + GroupBytes(s[..n]), colon)
    else if s[n] == '.' && |bytes| + 4 <= 16 then
      var q := Parse4(s, [], 0, false);
      if q.None? then None
      else
        Parse4Sound(s, [], 0, false);
        Finish(bytes + q.value, colon)
    else None
  }

  // A leading colon must be the first of two.
  function Value6(s: string): Option<seq<Byte>> {
    if s != "" && s[0] == ':' then
      if |s| >= 2 && s[1] == ':' then Parse6(s[1..], [], -1) else None
    else Parse6(s, [], -1)
  }

  // A group followed by a colon, or at the end, is read as such.
  lemma {:induction false} GroupRun(g: string, rest: string)
    requires IsGroup(g) && (rest == "" || rest[0] == ':')
    ensures HexRun(g + rest) == |g|
  {
    HexRunIs(g + rest, |g|);
  }

  lemma {:induction false} MixedRun(q: seq<Byte>)
    requires |q| == 4
    ensures var s := Text4(q); 0 < HexRun(s) <= 3 && HexRun(s) < |s| && s[HexRun(s)] == '.'
  {
    var d := Decimal(q[0]);
    assert forall i :: 0 <= i < |d| ==> Text4(q)[i] == d[i];
    HexRunIs(Text4(q), |d|);
  }

  // The step of the parser over a group and the colon behind it.
  lemma {:induction false} ReadGroup(g: string, rest: string, bytes: seq<Byte>, colon: int)
    requires IsGroup(g) && rest != "" && -1 <= colon <= |bytes| <= 14
    ensures Parse6(g + (":" + rest), bytes, colon) == Parse6(rest, bytes + GroupBytes(g), colon)
  {
    var s := g + (":" + rest);
    GroupRun(g, ":" + rest);
    assert s[..|g|] == g && s[|g| + 1..] == rest;
  }

  lemma {:induction false} ReadColon(rest: string, bytes: seq<Byte>)
    requires |bytes| <= 16
    ensures Parse6(":" + rest, bytes, -1) == Parse6(rest, bytes, |bytes|)
  {
    assert (":" + rest)[1..] == rest;
  }

  lemma {:induction false} ReadMixed(q: seq<Byte>, bytes: seq<Byte>, colon: int)
    requires |q| == 4 && -1 <= colon <= |bytes| <= 12
    ensures Parse6(Text4(q), bytes, colon) == Finish(bytes + q, colon)
  {
    MixedRun(q);
    Parse4Complete(q);
  }

  // -- Every address text is accepted, with its value -------------------------------------

  lemma {:induction false} ReadRow(r: Row, bytes: seq<Byte>, colon: int)
    requires RowOk(r, true) && -1 <= colon <= |bytes| && |bytes| + |RowBytes(r)| <= 16
    ensures Parse6(RowText(r), bytes, colon) == Finish(bytes + RowBytes(r), colon)
    decreases r
  {
    match r
    case End => assert bytes + [] == bytes;
    case Mixed(q) => ReadMixed(q, bytes, colon);
    case Group(g, rest) =>
      assert bytes + RowBytes(r) == bytes + GroupBytes(g) + RowBytes(rest);
      if rest.End? {
        GroupRun(g, "");
        assert g + "" == g && GroupBytes(g) + [] == GroupBytes(g);
      } else {
        ReadGroup(g, RowText(rest), bytes, colon);
        ReadRow(rest, bytes + GroupBytes(g), colon);
      }
  }

  lemma {:induction false} ReadBefore(r: Row, rest: string, bytes: seq<Byte>)
    requires RowOk(r, false) && RowOk(r, true) && !r.End? && |bytes| + |RowBytes(r)| <= 14
    ensures Parse6(RowText(r) + ("::" + rest), bytes, -1) == Parse6(rest, bytes + RowBytes(r), |bytes + RowBytes(r)|)
    decreases r
  {
    var g := r.g;
    assert bytes + RowBytes(r) == bytes + GroupBytes(g) + RowBytes(r.rest);
    if r.rest.End? {
      assert GroupBytes(g) + [] == GroupBytes(g) && "::" + rest == ":" + (":" + rest);
      ReadGroup(g, ":" + rest, bytes, -1);
      ReadColon(rest, bytes + GroupBytes(g));
    } else {
      var tail := RowText(r.rest) + ("::" + rest);
      assert RowText(r) + ("::" + rest) == g + (":" + tail);
      ReadGroup(g, tail, bytes, -1);
      ReadBefore(r.rest, rest, bytes + GroupBytes(g));
    }
  }

  lemma {:induction false} RowFirst(r: Row)
    requires RowOk(r, true) && !r.End?
    ensures RowText(r)[0] != ':'
  {
    if r.Group? {
      assert IsHex(r.g[0]);
    }
  }

  lemma {:induction false} ReadDouble(before: Row, after: Row)
    requires AddressOk(Double(before, after))
    ensures Value6(AddressText(Double(before, after))) == Parse6(RowText(after), RowBytes(before), |RowBytes(before)|)
  {
    var t := RowText(after);
    if before.End? {
      assert "" + ("::" + t) == ":" + (":" + t) && (":" + (":" + t))[1..] == ":" + t;
      ReadColon(t, []);
    } else {
      RowFirst(before);
      ReadBefore(before, t, []);
      assert [] + RowBytes(before) == RowBytes(before);
    }
  }

  lemma {:induction false} ReadPlain(row: Row)
    requires AddressOk(Plain(row))
    ensures Value6(RowText(row)) == Some(RowBytes(row))
  {
    RowFirst(row);
    NoLeadingColon(RowText(row));
    ReadRow(row, [], -1);
    assert [] + RowBytes(row) == RowBytes(row);
  }

  lemma {:induction false} NoLeadingColon(s: string)
    requires s == "" || s[0] != ':'
    ensures Value6(s) == Parse6(s, [], -1)
  {}

  lemma {:induction false} ReadAddress(a: Address)
    requires AddressOk(a)
    ensures Value6(AddressText(a)) == Some(AddressBytes(a))
  {
    match a
    case Plain(row) => ReadPlain(row);
    case Double(before, after) =>
      var x, y := RowBytes(before), RowBytes(after);
      ReadDouble(before, after);
      ReadRow(after, x, |x|);
      assert (x + y)[..|x|] == x && (x + y)[|x|..] == y;
  }

  // -- What is accepted is an address text --------------------------------------------------

  function Append(r: Row, t: Row): Row
    requires RowOk(r, false)
  {
    match r
    case End => t
    case Group(g, rest) => Group(g, Append(rest, t))
  }

  // The text of a row with s behind it.
  function Glue(r: Row, s: string): string
    requires RowOk(r, true)
  {
    if r.End? then s else RowText(r) + (":" + s)
  }

  lemma {:induction false} Appended(r: Row, t: Row, mixed: bool)
    requires RowOk(r, false) && RowOk(t, mixed)
    ensures RowOk(r, true) && RowOk(t, true) && RowOk(Append(r, t), mixed) && RowOk(Append(r, t), true)
    decreases r
  {
    RowOkMixed(r);
    if !mixed {
      RowOkMixed(t);
    }
    if r.Group? {
      Appended(r.rest, t, mixed);
    }
  }

  lemma {:induction false} AppendedBytes(r: Row, t: Row)
    requires RowOk(r, false) && RowOk(r, true) && RowOk(t, true) && RowOk(Append(r, t), true)
    ensures RowBytes(Append(r, t)) == RowBytes(r) + RowBytes(t)
    decreases r
  {
    if r.Group? {
      AppendedBytes(r.rest, t);
      assert GroupBytes(r.g) + (RowBytes(r.rest) + RowBytes(t)) == GroupBytes(r.g) + RowBytes(r.rest) + RowBytes(t);
    } else {
      assert [] + RowBytes(t) == RowBytes(t);
    }
  }

  lemma {:induction false} AppendedText(r: Row, t: Row)
    requires RowOk(r, false) && RowOk(r, true) && RowOk(t, true) && RowOk(Append(r, t), true)
    ensures RowText(Append(r, t)) == if t.End? then RowText(r) else Glue(r, RowText(t))
    decreases r
  {
    if r.Group? {
      AppendedText(r.rest, t);
      if !t.End? && !r.rest.End? {
        var x, y, z := r.g, RowText(r.rest), RowText(t);
        assert x + (":" + (y + (":" + z))) == x + (":" + y) + (":" + z);
      }
    }
  }

  lemma {:induction false} GlueGroup(r: Row, g: string, s: string, t: string)
    requires RowOk(r, true) && t == g + (":" + s)
    ensures Glue(r, g) + (":" + s) == Glue(r, t)
  {
    if !r.End? {
      assert RowText(r) + (":" + g) + (":" + s) == RowText(r) + (":" + (g + (":" + s)));
    }
  }

  // What the parser has made sure of when it has read a group and a colon.
  lemma {:induction false} GroupRead(s: string, n: nat, bytes: seq<Byte>, colon: int, v: seq<Byte>)
    requires -1 <= colon <= |bytes| <= 16 && |bytes| % 2 == 0 && Parse6(s, bytes, colon) == Some(v)
    requires n == HexRun(s) && 0 < n < |s| && s[n] == ':'
    ensures IsGroup(s[..n]) && n + 1 < |s| && |bytes| <= 14
    ensures Parse6(s[n + 1..], bytes + GroupBytes(s[..n]), colon) == Some(v)
  {}

  lemma {:induction false} GroupAppended(r: Row, s: string, n: nat)
    requires RowOk(r, false) && RowOk(r, true) && n < |s| && s[n] == ':' && IsGroup(s[..n])
    ensures var r' := Append(r, Group(s[..n], End));
      && RowOk(r', false) && RowOk(r', true) && !r'.End? && Glue(r', s[n + 1..]) == Glue(r, s)
      && RowBytes(r') == RowBytes(r) + GroupBytes(s[..n])
  {
    var last := Group(s[..n], End);
    Appended(r, last, false);
    AppendedBytes(r, last);
    AppendedText(r, last);
    assert GroupBytes(s[..n]) + [] == GroupBytes(s[..n]);
    assert s == s[..n] + (":" + s[n + 1..]);
    GlueGroup(r, s[..n], s[n + 1..], s);
  }

  // The last token: nothing, a group or an IPv4 text.
  lemma {:induction false} LastRead(s: string, bytes: seq<Byte>, colon: int, v: seq<Byte>) returns (t: Row)
    requires -1 <= colon <= |bytes| <= 16 && |bytes| % 2 == 0 && Parse6(s, bytes, colon) == Some(v)
    requires HexRun(s) == |s| || s[HexRun(s)] != ':'
    ensures RowOk(t, true) && s == RowText(t)
    ensures |bytes| + |RowBytes(t)| <= 16 && Finish(bytes + RowBytes(t), colon) == Some(v)
  {
    if s == "" {
      t := End;
      assert bytes + [] == bytes;
    } else if HexRun(s) == |s| {
      t := Group(s, End);
      assert GroupBytes(s) + [] == GroupBytes(s);
    } else {
      t := Mixed(Parse4(s, [], 0, false).value);
      Parse4Exact(s, t.q);
    }
  }

  lemma {:induction false} AfterLast(x: seq<Byte>, y: seq<Byte>, z: seq<Byte>, v: seq<Byte>)
    requires |x| % 2 == 0 && |y| % 2 == 0 && |z| % 2 == 0 && |x| + |y| + |z| <= 16
    requires Finish(x + y + z, |x|) == Some(v)
    ensures |x| + |y + z| <= 14 && v == x + Zeros(16 - |x| - |y + z|) + (y + z)
  {
    assert x + y + z == x + (y + z);
    assert (x + (y + z))[..|x|] == x && (x + (y + z))[|x|..] == y + z;
  }

  lemma {:induction false} DoubleDone(text: string, before: Row, after: Row, s: string, t: Row, v: seq<Byte>)
    requires RowOk(before, false) && RowOk(before, true) && RowOk(after, false) && RowOk(after, true)
    requires RowOk(t, true) && s == RowText(t) && (!after.End? ==> s != "")
    requires text == RowText(before) + ("::" + Glue(after, s))
    requires |RowBytes(before)| + |RowBytes(after)| + |RowBytes(t)| <= 16
    requires Finish(RowBytes(before) + RowBytes(after) + RowBytes(t), |RowBytes(before)|) == Some(v)
    ensures var a := Double(before, Append(after, t)); AddressOk(a) && text == AddressText(a) && v == AddressBytes(a)
  {
    Appended(after, t, true);
    AppendedBytes(after, t);
    AppendedText(after, t);
    AfterLast(RowBytes(before), RowBytes(after), RowBytes(t), v);
    assert after.End? && t.End? ==> RowText(after) == s;
    DoubleIs(before, Append(after, t), Glue(after, s), v);
  }

  lemma {:induction false} DoubleIs(before: Row, r: Row, s: string, v: seq<Byte>)
    requires RowOk(before, false) && RowOk(before, true) && RowOk(r, true) && RowText(r) == s
    requires |RowBytes(before)| + |RowBytes(r)| <= 14
    requires v == RowBytes(before) + Zeros(16 - |RowBytes(before)| - |RowBytes(r)|) + RowBytes(r)
    ensures var a := Double(before, r);
      AddressOk(a) && AddressText(a) == RowText(before) + ("::" + s) && AddressBytes(a) == v
  {}

  lemma {:induction false} NoSecondDouble(s: string, bytes: seq<Byte>, colon: nat, v: seq<Byte>)
    requires colon <= |bytes| <= 16 && Parse6(s, bytes, colon) == Some(v)
    ensures HexRun(s) <= |s| && (HexRun(s) < |s| && s[HexRun(s)] == ':' ==> HexRun(s) > 0)
  {}

  lemma {:induction false} ParsedAfter(text: string, before: Row, after: Row, s: string, bytes: seq<Byte>, v: seq<Byte>)
    returns (a: Address)
    requires RowOk(before, false) && RowOk(before, true) && RowOk(after, false) && RowOk(after, true)
    requires bytes == RowBytes(before) + RowBytes(after) && |bytes| <= 16 && (!after.End? ==> s != "")
    requires text == RowText(before) + ("::" + Glue(after, s))
    requires Parse6(s, bytes, |RowBytes(before)|) == Some(v)
    ensures AddressOk(a) && text == AddressText(a) && v == AddressBytes(a)
    decreases |s|
  {
    hide *;
    var n := HexRun(s);
    NoSecondDouble(s, bytes, |RowBytes(before)|, v);
    if n == |s| || s[n] != ':' {
      var t := LastRead(s, bytes, |RowBytes(before)|, v);
      a := Double(before, Append(after, t));
      DoubleDone(text, before, after, s, t, v);
    } else {
      GroupRead(s, n, bytes, |RowBytes(before)|, v);
      GroupAppended(after, s, n);
      a := ParsedAfter(text, before, Append(after, Group(s[..n], End)), s[n + 1..], bytes + GroupBytes(s[..n]), v);
    }
  }

  lemma {:induction false} ColonRead(s: string, bytes: seq<Byte>, v: seq<Byte>)
    requires |bytes| <= 16 && s != "" && s[0] == ':' && Parse6(s, bytes, -1) == Some(v)
    ensures Parse6(s[1..], bytes, |bytes|) == Some(v)
  {}

  lemma {:induction false} ColonGlued(before: Row, s: string)
    requires RowOk(before, true) && s != "" && s[0] == ':' && !before.End?
    ensures Glue(before, s) == RowText(before) + ("::" + Glue(End, s[1..]))
    ensures RowBytes(before) + RowBytes(End) == RowBytes(before)
  {
    assert ":" + s == "::" + s[1..];
  }

  lemma {:induction false} PlainDone(text: string, before: Row, s: string, t: Row, v: seq<Byte>)
    requires RowOk(before, false) && RowOk(before, true) && RowOk(t, true) && s == RowText(t)
    requires text == Glue(before, s) && (!before.End? ==> s != "")
    requires |RowBytes(before)| + |RowBytes(t)| <= 16 && Finish(RowBytes(before) + RowBytes(t), -1) == Some(v)
    ensures var a := Plain(Append(before, t)); AddressOk(a) && text == AddressText(a) && v == AddressBytes(a)
  {
    Appended(before, t, true);
    AppendedBytes(before, t);
    AppendedText(before, t);
  }

  lemma {:induction false} ParsedBefore(text: string, before: Row, s: string, v: seq<Byte>) returns (a: Address)
    requires RowOk(before, false) && RowOk(before, true) && |RowBytes(before)| <= 16
    requires text == Glue(before, s) && (before.End? ==> s == "" || s[0] != ':') && (!before.End? ==> s != "")
    requires Parse6(s, RowBytes(before), -1) == Some(v)
    ensures AddressOk(a) && text == AddressText(a) && v == AddressBytes(a)
    decreases |s|
  {
    var n := HexRun(s);
    assert RowOk(End, false) && RowOk(End, true) && RowBytes(End) == [];
    hide *;
    if n == |s| || s[n] != ':' {
      var t := LastRead(s, RowBytes(before), -1, v);
      a := Plain(Append(before, t));
      PlainDone(text, before, s, t, v);
    } else if n == 0 {
      ColonRead(s, RowBytes(before), v);
      ColonGlued(before, s);
      a := ParsedAfter(text, before, End, s[1..], RowBytes(before), v);
    } else {
      GroupRead(s, n, RowBytes(before), -1, v);
      GroupAppended(before, s, n);
      a := ParsedBefore(text, Append(before, Group(s[..n], End)), s[n + 1..], v);
    }
  }

  lemma {:induction false} ParsedAddress(s: string, v: seq<Byte>) returns (a: Address)
    requires Value6(s) == Some(v)
    ensures AddressOk(a) && s == AddressText(a) && v == AddressBytes(a)
  {
    if s != "" && s[0] == ':' {
      assert s[1..][1..] == s[2..];
      assert s == "" + ("::" + s[2..]) && RowBytes(End) + RowBytes(End) == [];
      a := ParsedAfter(s, End, End, s[2..], [], v);
    } else {
      a := ParsedBefore(s, End, s, v);
    }
  }

  // The parser accepts exactly the address texts, with the value they denote; in
  // particular a text denotes one value.
  lemma {:induction false} Value6Exact(s: string, v: seq<Byte>)
    ensures Value6(s) == Some(v) <==> Denotes6(s, v)
  {
    if Value6(s) == Some(v) {
      var a := ParsedAddress(s, v);
    }
    if Denotes6(s, v) {
      var a :| AddressOk(a) && s == AddressText(a) && v == AddressBytes(a);
      ReadAddress(a);
    }
  }
}
