/** Address printing and parsing (src/inet.cpp), as loops over buffers.

Strings are without their terminating NUL; a size counts it.
*/
module Inet {
  import opened InetText

  datatype Error = EINVAL | ENOSPC | EAFNOSUPPORT
  datatype Result<T> = Ok(value: T) | Err(error: Error)
  datatype Family = AF_INET | AF_INET6 | AF_OTHER

  const ADDRSTRLEN := 16
  const ADDRSTRLEN6 := 46

  // -- Printing -----------------------------------------------------------------------------

  method InetNtop4(src: seq<Byte>, size: nat) returns (r: Result<string>)
    requires |src| == 4
    ensures r == if |Text4(src)| < size then Ok(Text4(src)) else Err(ENOSPC)
    ensures |Text4(src)| < ADDRSTRLEN
  {
    var tmp := Decimal(src[0]) + ("." + (Decimal(src[1]) + ("." + (Decimal(src[2]) + ("." + Decimal(src[3]))))));
    if |tmp| <= 0 || |tmp| >= size {
      return Err(ENOSPC);
    }
    return Ok(tmp);
  }

  // words is zero on [a, b).
  ghost predicate ZeroRun(words: seq<Word>, a: int, b: int) {
    0 <= a < b <= |words| && forall k :: a <= k < b ==> words[k] == 0
  }

  datatype Run = Run(base: int, len: int)

  // The first longest zero run of at least two words, if there is one (section 4.2.3 of
  // RFC 5952).
  ghost predicate IsBest(words: seq<Word>, best: Run) {
    if best.base == -1 then forall a, b :: ZeroRun(words, a, b) ==> b - a < 2
    else
      && best.len >= 2 && ZeroRun(words, best.base, best.base + best.len)
      && forall a, b :: ZeroRun(words, a, b) ==> b - a < best.len || (b - a == best.len && best.base <= a)
  }

  lemma {:induction false} BestUnique(words: seq<Word>, x: Run, y: Run)
    requires IsBest(words, x) && IsBest(words, y)
    ensures x.base == y.base && (x.base != -1 ==> x.len == y.len)
  {
    if x.base != -1 {
      assert ZeroRun(words, x.base, x.base + x.len);
    }
    if y.base != -1 {
      assert ZeroRun(words, y.base, y.base + y.len);
    }
  }

  // The runs that end by `limit` are no better than `best`.
  ghost predicate Beats(words: seq<Word>, best: Run, limit: int) {
    && (best.base != -1 ==>
          best.len >= 1 && ZeroRun(words, best.base, best.base + best.len) && best.base + best.len <= limit)
    && forall a, b :: ZeroRun(words, a, b) && b <= limit ==>
         best.base != -1 && (b - a < best.len || (b - a == best.len && best.base <= a))
  }

  // cur is the zero run that ends at i, as long as it can be, or none does.
  ghost predicate Current(words: seq<Word>, cur: Run, i: int) {
    if cur.base == -1 then i == 0 || (0 < i <= |words| && words[i - 1] != 0)
    else
      && cur.len >= 1 && cur.base + cur.len == i && ZeroRun(words, cur.base, i)
      && (cur.base == 0 || words[cur.base - 1] != 0)
  }

  lemma {:induction false} CloseRun(words: seq<Word>, best: Run, cur: Run, i: int)
    requires 0 <= i <= |words| && cur.base != -1 && Current(words, cur, i) && Beats(words, best, cur.base)
    ensures Beats(words, if best.base == -1 || cur.len > best.len then cur else best, i)
  {
    var r := if best.base == -1 || cur.len > best.len then cur else best;
    forall a, b | ZeroRun(words, a, b) && b <= i
      ensures b - a < r.len || (b - a == r.len && r.base <= a)
    {}
  }

  lemma {:induction false} NoRunThrough(words: seq<Word>, best: Run, i: int)
    requires 0 <= i < |words| && words[i] != 0 && Beats(words, best, i)
    ensures Beats(words, best, i + 1)
  {
    assert forall a, b :: ZeroRun(words, a, b) && b <= i + 1 ==> b <= i;
  }

  // Lines 87-110.
  method FindRun(words: seq<Word>) returns (best: Run)
    requires |words| == 8
    ensures IsBest(words, best) && (best.base == -1 || 0 <= best.base)
  {
    var cur := Run(-1, 0);
    best := Run(-1, 0);
    for i := 0 to |words|
      invariant Current(words, cur, i)
      invariant Beats(words, best, if cur.base == -1 then i else cur.base)
    {
      if words[i] == 0 {
        if cur.base == -1 {
          cur := Run(i, 1);
        } else {
          cur := cur.(len := cur.len + 1);
        }
      } else {
        if cur.base != -1 {
          CloseRun(words, best, cur, i);
          if best.base == -1 || cur.len > best.len {
            best := cur;
          }
          cur := cur.(base := -1);
        }
        NoRunThrough(words, best, i);
      }
    }
    if cur.base != -1 {
      CloseRun(words, best, cur, |words|);
      if best.base == -1 || cur.len > best.len {
        best := cur;
      }
    }
    if best.base != -1 && best.len < 2 {
      best := best.(base := -1);
    }
  }

  function WordAt(src: seq<Byte>, k: nat): Word
    requires |src| == 16 && k < 8
  {
    (src[2 * k] as int) * 256 + src[2 * k + 1] as int
  }

  // Lines 84-86.
  function Words(src: seq<Byte>): (words: seq<Word>)
    requires |src| == 16
    ensures |words| == 8 && forall k :: 0 <= k < 8 ==> words[k] == WordAt(src, k)
  {
    seq(8, k requires 0 <= k < 8 => WordAt(src, k))
  }

  // Words as hexadecimal groups.
  function HexRow(words: seq<Word>): (r: Row)
    ensures RowOk(r, false) && RowOk(r, true)
  {
    if words == [] then End else Group(Hex(words[0]), HexRow(words[1..]))
  }

  // A text ends in an IPv4 address if six leading words are zero, or five and then ffff.
  predicate Encapsulated(words: seq<Word>, best: Run)
    requires |words| == 8
  {
    best.base == 0 && (best.len == 6 || (best.len == 5 && words[5] == 0xffff))
  }

  // The address text that is printed.
  function Canonical(src: seq<Byte>, best: Run): (a: Address)
    requires |src| == 16 && (best.base == -1 || (0 <= best.base && 2 <= best.len && best.base + best.len <= 8))
  {
    var words := Words(src);
    if best.base == -1 then Plain(HexRow(words))
    else if Encapsulated(words, best) then
      Double(End, if best.len == 6 then Mixed(src[12..]) else Group(Hex(words[5]), Mixed(src[12..])))
    else Double(HexRow(words[..best.base]), HexRow(words[best.base + best.len..]))
  }

  function WordBytes(words: seq<Word>): seq<Byte> {
    if words == [] then [] else [words[0] / 256, words[0] % 256] + WordBytes(words[1..])
  }

  lemma {:induction false} HexRowBytes(words: seq<Word>)
    ensures RowBytes(HexRow(words)) == WordBytes(words)
  {
    if words != [] {
      GroupValueHex(words[0]);
      HexRowBytes(words[1..]);
    }
  }

  lemma {:induction false} WordBytesJoin(a: seq<Word>, b: seq<Word>)
    ensures WordBytes(a + b) == WordBytes(a) + WordBytes(b)
  {
    if a == [] {
      assert a + b == b;
    } else {
      assert (a + b)[1..] == a[1..] + b;
      WordBytesJoin(a[1..], b);
    }
  }

  lemma {:induction false} WordBytesAt(words: seq<Word>, k: nat)
    requires k < |words|
    ensures |WordBytes(words)| == 2 * |words|
    ensures WordBytes(words)[2 * k] == words[k] / 256 && WordBytes(words)[2 * k + 1] == words[k] % 256
  {
    if k > 0 {
      WordBytesAt(words[1..], k - 1);
    } else if |words| > 1 {
      WordBytesAt(words[1..], 0);
    }
  }

  lemma {:induction false} WordsBack(src: seq<Byte>)
    requires |src| == 16
    ensures WordBytes(Words(src)) == src
  {
    var b := WordBytes(Words(src));
    WordBytesAt(Words(src), 0);
    forall i | 0 <= i < 16 ensures b[i] == src[i] {
      WordBytesAt(Words(src), i / 2);
      assert WordAt(src, i / 2) / 256 == src[2 * (i / 2)] && WordAt(src, i / 2) % 256 == src[2 * (i / 2) + 1];
    }
  }

  lemma {:induction false} ZeroBytes(words: seq<Word>)
    requires forall k :: 0 <= k < |words| ==> words[k] == 0
    ensures WordBytes(words) == Zeros(2 * |words|)
  {
    if words != [] {
      ZeroBytes(words[1..]);
      assert [0, 0] + Zeros(2 * |words| - 2) == [0] + ([0] + Zeros(2 * |words| - 2));
    }
  }

  // The words around the zero run, and the run.
  lemma {:induction false} AroundRun(words: seq<Word>, i: nat, j: nat)
    requires i < j <= |words| && ZeroRun(words, i, j)
    ensures WordBytes(words) == WordBytes(words[..i]) + Zeros(2 * (j - i)) + WordBytes(words[j..])
  {
    var x, y, z := words[..i], words[i..j], words[j..];
    assert words == x + (y + z);
    WordBytesJoin(x, y + z);
    WordBytesJoin(y, z);
    ZeroBytes(y);
  }

  lemma {:induction false} CanonicalPlain(src: seq<Byte>, best: Run)
    requires |src| == 16 && best.base == -1
    ensures |Words(src)| == 8 && Canonical(src, best) == Plain(HexRow(Words(src)))
  {}

  lemma {:induction false} CanonicalDouble(src: seq<Byte>, best: Run)
    requires |src| == 16 && IsBest(Words(src), best) && 0 <= best.base && !Encapsulated(Words(src), best)
    ensures var words := Words(src);
      && 2 <= best.len <= 8 - best.base && |words| == 8 && ZeroRun(words, best.base, best.base + best.len)
      && Canonical(src, best) == Double(HexRow(words[..best.base]), HexRow(words[best.base + best.len..]))
  {}

  lemma {:induction false} CanonicalOk(src: seq<Byte>, best: Run)
    requires |src| == 16 && IsBest(Words(src), best) && (best.base == -1 || 0 <= best.base)
    ensures AddressOk(Canonical(src, best)) && AddressBytes(Canonical(src, best)) == src
  {
    hide *;
    var words := Words(src);
    WordsBack(src);
    if best.base == -1 {
      CanonicalPlain(src, best);
      PlainBytes(words);
    } else if Encapsulated(words, best) {
      EncapsulatedBytes(src, best);
    } else {
      CanonicalDouble(src, best);
      AroundRun(words, best.base, best.base + best.len);
      RunBytes(words[..best.base], words[best.base + best.len..], src);
    }
  }

  lemma {:induction false} PlainBytes(words: seq<Word>)
    requires |words| == 8
    ensures AddressOk(Plain(HexRow(words))) && AddressBytes(Plain(HexRow(words))) == WordBytes(words)
  {
    hide HexRow, WordBytes, RowBytes, RowOk;
    HexRowBytes(words);
    Lengths(words);
  }

  lemma {:induction false} RunBytes(x: seq<Word>, z: seq<Word>, v: seq<Byte>)
    requires |x| + |z| <= 6 && v == WordBytes(x) + Zeros(2 * (8 - |x| - |z|)) + WordBytes(z)
    ensures AddressOk(Double(HexRow(x), HexRow(z))) && AddressBytes(Double(HexRow(x), HexRow(z))) == v
  {
    hide *;
    Lengths(x);
    Lengths(z);
    HexRowBytes(x);
    HexRowBytes(z);
    DoubleIs(HexRow(x), HexRow(z), RowText(HexRow(z)), v);
  }

  lemma {:induction false} Lengths(words: seq<Word>)
    ensures |WordBytes(words)| == 2 * |words|
  {
    if words != [] {
      WordBytesAt(words, 0);
    }
  }

  lemma {:induction false} EncapsulatedBytes(src: seq<Byte>, best: Run)
    requires |src| == 16 && IsBest(Words(src), best) && Encapsulated(Words(src), best)
    ensures AddressOk(Canonical(src, best)) && AddressBytes(Canonical(src, best)) == src
  {
    var words := Words(src);
    GroupValueHex(words[5]);
    var a := Canonical(src, best);
    var n := 2 * best.len;
    assert RowBytes(Mixed(src[12..])) == src[12..];
    assert |RowBytes(a.after)| == 16 - n && RowBytes(End) == [];
    forall i | 0 <= i < n ensures src[i] == 0 {
      assert words[i / 2] == 0 && WordAt(src, i / 2) == 0;
    }
    assert RowBytes(a.after) == src[n..];
    assert [] + Zeros(n) + src[n..] == src;
  }

  // Printing loses nothing: the printed text is an address text of what was printed.
  lemma {:induction false} PrintedIsRead(src: seq<Byte>, best: Run)
    requires |src| == 16 && IsBest(Words(src), best) && (best.base == -1 || 0 <= best.base)
    ensures AddressOk(Canonical(src, best)) && Value6(AddressText(Canonical(src, best))) == Some(src)
  {
    CanonicalOk(src, best);
    ReadAddress(Canonical(src, best));
  }

  // Words printed with a colon before each.
  function Colons(words: seq<Word>): string {
    if words == [] then "" else ":" + (Hex(words[0]) + Colons(words[1..]))
  }

  lemma {:induction false} ColonsSnoc(words: seq<Word>, w: Word)
    ensures Colons(words + [w]) == Colons(words) + (":" + Hex(w))
  {
    if words == [] {
      assert words + [w] == [w] && [w][1..] == [];
      assert Hex(w) + "" == Hex(w) && "" + (":" + Hex(w)) == ":" + Hex(w);
    } else {
      assert (words + [w])[1..] == words[1..] + [w];
      ColonsSnoc(words[1..], w);
      hide *;
      assert ":" + (Hex(words[0]) + (Colons(words[1..]) + (":" + Hex(w))))
          == ":" + (Hex(words[0]) + Colons(words[1..])) + (":" + Hex(w));
    }
  }

  // What follows the first word of a row is printed with colons.
  lemma {:induction false} RowColons(words: seq<Word>)
    requires words != []
    ensures ":" + RowText(HexRow(words)) == Colons(words)
  {
    if |words| == 1 {
      assert HexRow(words[1..]) == End && Hex(words[0]) + "" == Hex(words[0]);
    } else {
      RowColons(words[1..]);
    }
  }

  lemma {:induction false} RowSnoc(words: seq<Word>, w: Word)
    requires words != []
    ensures RowText(HexRow(words + [w])) == RowText(HexRow(words)) + (":" + Hex(w))
    decreases |words|
  {
    var ws := words + [w];
    if |words| == 1 {
      assert ws[1..] == [w] && [w][1..] == [];
      assert HexRow([w]) == Group(Hex(w), End);
      assert HexRow(words[1..]) == End;
    } else {
      assert ws[1..] == words[1..] + [w];
      RowSnoc(words[1..], w);
      assert Hex(words[0]) + (":" + (RowText(HexRow(words[1..])) + (":" + Hex(w))))
          == Hex(words[0]) + (":" + RowText(HexRow(words[1..]))) + (":" + Hex(w));
    }
  }

  // What has been printed when word i is reached (lines 116-138).
  function Printed(words: seq<Word>, best: Run, i: nat): string
    requires i <= |words| == 8 && (best.base == -1 || (0 <= best.base && 2 <= best.len && best.base + best.len <= 8))
  {
    if best.base == -1 || i <= best.base then RowText(HexRow(words[..i]))
    else if i <= best.base + best.len then RowText(HexRow(words[..best.base])) + ":"
    else RowText(HexRow(words[..best.base])) + (":" + Colons(words[best.base + best.len..i]))
  }

  lemma {:induction false} PrintWord(words: seq<Word>, best: Run, i: nat)
    requires i < |words| == 8 && (best.base == -1 || (0 <= best.base && 2 <= best.len && best.base + best.len <= 8))
    requires best.base == -1 || i < best.base || best.base + best.len <= i
    ensures Printed(words, best, i + 1) == Printed(words, best, i) + ((if i != 0 then ":" else "") + Hex(words[i]))
  {
    assert words[..i + 1] == words[..i] + [words[i]];
    if best.base == -1 || i < best.base {
      if i == 0 {
        assert words[..1][1..] == [] && words[..0] == [];
      } else {
        RowSnoc(words[..i], words[i]);
      }
    } else {
      ColonsSnoc(words[best.base + best.len..i], words[i]);
      assert words[best.base + best.len..i] + [words[i]] == words[best.base + best.len..i + 1];
      if best.base + best.len == i {
        assert words[best.base + best.len..i] == [];
      }
      var x := RowText(HexRow(words[..best.base]));
      assert x + (":" + (Colons(words[best.base + best.len..i]) + (":" + Hex(words[i]))))
          == x + (":" + Colons(words[best.base + best.len..i])) + (":" + Hex(words[i]));
    }
  }

  // A plain end of the loop, with the colon of a trailing run (line 140).
  lemma {:induction false} PrintEnd(src: seq<Byte>, best: Run)
    requires |src| == 16 && IsBest(Words(src), best) && (best.base == -1 || 0 <= best.base)
    requires !Encapsulated(Words(src), best)
    ensures AddressOk(Canonical(src, best))
    ensures AddressText(Canonical(src, best)) ==
      if best.base != -1 && best.base + best.len == 8 then Printed(Words(src), best, 8) + ":"
        else Printed(Words(src), best, 8)
  {
    var words := Words(src);
    CanonicalOk(src, best);
    assert words[..8] == words;
    if best.base != -1 {
      var z := words[best.base + best.len..];
      assert z == words[best.base + best.len..8];
      TailText(RowText(HexRow(words[..best.base])), z);
    }
  }

  lemma {:induction false} TailText(x: string, z: seq<Word>)
    ensures z == [] ==> x + ":" + ":" == x + ("::" + RowText(HexRow(z)))
    ensures z != [] ==> x + (":" + Colons(z)) == x + ("::" + RowText(HexRow(z)))
  {
    if z == [] {
      assert RowText(HexRow(z)) == "";
    } else {
      RowColons(z);
      hide *;
      assert ":" + (":" + RowText(HexRow(z))) == "::" + RowText(HexRow(z));
    }
  }

  // The embedded IPv4 address at word 6 (lines 128-136).
  lemma {:induction false} PrintMixed(src: seq<Byte>, best: Run)
    requires |src| == 16 && IsBest(Words(src), best) && Encapsulated(Words(src), best)
    ensures AddressOk(Canonical(src, best))
    ensures Printed(Words(src), best, 6) + (":" + Text4(src[12..])) == AddressText(Canonical(src, best))
  {
    CanonicalOk(src, best);
    PrintedSix(Words(src), best);
    var h, t := Hex(Words(src)[5]), Text4(src[12..]);
    assert RowText(Canonical(src, best).after) == if best.len == 6 then t else h + (":" + t);
    hide *;
    MixedText(h, t);
  }

  lemma {:induction false} PrintedSix(words: seq<Word>, best: Run)
    requires |words| == 8 && Encapsulated(words, best)
    ensures Printed(words, best, 6) == if best.len == 6 then "" + ":" else "" + (":" + (":" + Hex(words[5])))
  {
    assert words[..0] == [] && words[5..6] == [words[5]] && [words[5]][1..] == [];
    assert Hex(words[5]) + "" == Hex(words[5]);
    assert HexRow(words[..0]) == End && RowText(End) == "";
    assert Colons([words[5]]) == ":" + Hex(words[5]);
  }

  lemma {:induction false} MixedText(h: string, t: string)
    ensures "" + ":" + (":" + t) == "" + ("::" + t)
    ensures "" + (":" + (":" + h)) + (":" + t) == "" + ("::" + (h + (":" + t)))
  {}

  // -- Lengths -----------------------------------------------------------------------------

  lemma {:induction false} RowLength(words: seq<Word>)
    ensures |RowText(HexRow(words))| <= if words == [] then 0 else 5 * |words| - 1
  {
    if words != [] {
      RowLength(words[1..]);
    }
  }

  lemma {:induction false} ColonsLength(words: seq<Word>)
    ensures |Colons(words)| <= 5 * |words|
  {
    if words != [] {
      ColonsLength(words[1..]);
    }
  }

  lemma {:induction false} PrintedLength(words: seq<Word>, best: Run, i: nat)
    requires i <= |words| == 8 && (best.base == -1 || (0 <= best.base && 2 <= best.len && best.base + best.len <= 8))
    ensures |Printed(words, best, i)| <= if i == 0 then 0 else 5 * i - 1
    ensures best.base != -1 && best.base < i <= best.base + best.len ==> |Printed(words, best, i)| <= 5 * best.base + 1
  {
    RowLength(words[..i]);
    if best.base != -1 && best.base < i {
      RowLength(words[..best.base]);
      if best.base + best.len < i {
        ColonsLength(words[best.base + best.len..i]);
      }
    }
  }

  // -- The loops ---------------------------------------------------------------------------

  lemma {:induction false} BestRange(words: seq<Word>, best: Run)
    requires |words| == 8 && IsBest(words, best) && (best.base == -1 || 0 <= best.base)
    ensures best.base == -1 || (0 <= best.base && 2 <= best.len && best.base + best.len <= 8)
  {}

  // Inside the run only its first word prints a colon.
  lemma {:induction false} PrintRun(words: seq<Word>, best: Run, i: nat)
    requires i < |words| == 8 && 0 <= best.base <= i < best.base + best.len <= 8 && 2 <= best.len
    ensures i == best.base ==> Printed(words, best, i + 1) == Printed(words, best, i) + ":"
    ensures i != best.base ==> Printed(words, best, i + 1) == Printed(words, best, i)
  {}

  lemma {:induction false} PrintNext(words: seq<Word>, best: Run, i: nat)
    requires i < |words| == 8 && (best.base == -1 || (0 <= best.base && 2 <= best.len && best.base + best.len <= 8))
    requires best.base == -1 || i < best.base || best.base + best.len <= i
    ensures i == 0 ==> Printed(words, best, i + 1) == Printed(words, best, i) + Hex(words[i])
    ensures i != 0 ==> Printed(words, best, i + 1) == Printed(words, best, i) + ":" + Hex(words[i])
  {
    PrintWord(words, best, i);
    hide *;
    var front, h := Printed(words, best, i), Hex(words[i]);
    assert "" + h == h && front + (":" + h) == front + ":" + h;
  }

  // Outside of the run, the test for a tail in decimal at word 6.
  lemma {:induction false} PrintsMixed(words: seq<Word>, best: Run, i: nat)
    requires i < |words| == 8 && (best.base == -1 || i < best.base || best.base + best.len <= i)
    ensures i == 6 ==>
      (Encapsulated(words, best) <==>
         (best.base == 0
          && (best.len == 6 || (best.len == 7 && words[7] != 0x0001) || (best.len == 5 && words[5] == 0xffff))))
  {}

  // A word outside of the run.
  method AddWord(words: seq<Word>, best: Run, i: nat, tmp0: string) returns (tmp: string)
    requires i < |words| == 8 && (best.base == -1 || (0 <= best.base && 2 <= best.len && best.base + best.len <= 8))
    requires best.base == -1 || i < best.base || best.base + best.len <= i
    requires tmp0 == Printed(words, best, i)
    ensures tmp == Printed(words, best, i + 1)
  {
    hide *;
    PrintNext(words, best, i);
    tmp := tmp0;
    if i != 0 {
      tmp := tmp + ":";
    }
    tmp := tmp + Hex(words[i]);
  }

  // Lines 115-142: prints into tmp, of ADDRSTRLEN6 characters.
  method Format6(src: seq<Byte>, words: seq<Word>, best: Run) returns (tmp: string)
    requires |src| == 16 && words == Words(src) && IsBest(words, best) && (best.base == -1 || 0 <= best.base)
    ensures AddressOk(Canonical(src, best)) && tmp == AddressText(Canonical(src, best)) && |tmp| <= 39
  {
    BestRange(words, best);
    assert ADDRSTRLEN == 16 && ADDRSTRLEN6 == 46 && Printed(words, best, 0) == "";
    hide *;
    tmp := "";
    var i, last := 0, words[7];
    while i < |words|
      invariant 0 <= i <= 8 && tmp == Printed(words, best, i)
      invariant |tmp| <= 39 < ADDRSTRLEN6 && (i > 6 ==> !Encapsulated(words, best))
    {
      PrintedLength(words, best, i + 1);
      if best.base != -1 && i >= best.base && i < best.base + best.len {
        PrintRun(words, best, i);
        if i == best.base {
          tmp := tmp + ":";
        }
        i := i + 1;
        continue;
      }
      PrintsMixed(words, best, i);
      if i == 6 && best.base == 0
         && (best.len == 6 || (best.len == 7 && last != 0x0001) || (best.len == 5 && words[5] == 0xffff))
      {
        PrintMixed(src, best);
        EncapsulatedLength(words, best);
        var q := InetNtop4(src[12..], ADDRSTRLEN6 - |tmp + ":"|);
        return tmp + (":" + q.value);
      }
      tmp := AddWord(words, best, i, tmp);
      i := i + 1;
    }
    PrintedLength(words, best, 8);
    PrintEnd(src, best);
    if best.base != -1 && best.base + best.len == |words| {
      tmp := tmp + ":";
    }
  }

  lemma {:induction false} EncapsulatedLength(words: seq<Word>, best: Run)
    requires |words| == 8 && Encapsulated(words, best)
    ensures |Printed(words, best, 6)| <= 6
  {
    assert words[..0] == [];
    ColonsLength(words[best.len..6]);
  }

  // uv_inet_ntop for AF_INET6: at most 40 bytes with the NUL, the double colon on the first
  // longest zero run, and a text that reads back as the address.
  method InetNtop6(src: seq<Byte>, size: nat) returns (r: Result<string>, ghost best: Run)
    requires |src| == 16
    ensures IsBest(Words(src), best) && (best.base == -1 || 0 <= best.base) && AddressOk(Canonical(src, best))
    ensures var text := AddressText(Canonical(src, best));
      && |text| + 1 <= 40 && Value6(text) == Some(src)
      && r == if |text| + 1 <= size then Ok(text) else Err(ENOSPC)
  {
    var words := Words(src);
    var run := FindRun(words);
    best := run;
    var tmp := Format6(src, words, run);
    PrintedIsRead(src, run);
    if |tmp| + 1 > size {
      return Err(ENOSPC), best;
    }
    return Ok(tmp), best;
  }

  // inet_pton4: accepts exactly what inet_ntop4 prints.
  method InetPton4(src: string) returns (r: Option<seq<Byte>>)
    ensures r == Parse4(src, [], 0, false)
    ensures forall q :: r == Some(q) <==> Denotes4(src, q)
  {
    forall q ensures Parse4(src, [], 0, false) == Some(q) <==> Denotes4(src, q) {
      Parse4Exact(src, q);
    }
    var tmp := new Byte[4](_ => 0);
    var tp, octets, sawDigit := 0, 0, false;
    var i := 0;
    while i < |src|
      invariant 0 <= i <= |src| && 0 <= tp < 4 && octets == tp + (if sawDigit then 1 else 0)
      invariant Parse4(src, [], 0, false) == Parse4(src[i..], tmp[..tp], tmp[tp], sawDigit)
    {
      var ch := src[i];
      i := i + 1;
      assert src[i - 1..][1..] == src[i..];
      if IsDigit(ch) {
        var nw := tmp[tp] * 10 + HexValue(ch);
        if sawDigit && tmp[tp] == 0 {
          return None;
        }
        if nw > 255 {
          return None;
        }
        ghost var done := tmp[..tp];
        tmp[tp] := nw;
        assert tmp[..tp] == done;
        if !sawDigit {
          octets := octets + 1;
          if octets > 4 {
            return None;
          }
          sawDigit := true;
        }
      } else if ch == '.' && sawDigit {
        if octets == 4 {
          return None;
        }
        ghost var done, val := tmp[..tp], tmp[tp];
        tp := tp + 1;
        tmp[tp] := 0;
        assert tmp[..tp] == done + [val];
        sawDigit := false;
      } else {
        return None;
      }
    }
    if octets < 4 {
      return None;
    }
    assert tmp[..] == tmp[..tp] + [tmp[tp]];
    return Some(tmp[..]);
  }

  // Lines 292-301: makes room for the double colon at the end of tmp.
  method ShiftRight(tmp: array<Byte>, tp: nat, colonp: nat)
    requires tmp.Length == 16 && colonp <= tp < 16 && forall k :: tp <= k < 16 ==> tmp[k] == 0
    modifies tmp
    ensures Finish(old(tmp[..tp]), colonp) == Some(tmp[..])
  {
    var n := tp - colonp;
    ghost var was := tmp[..];
    for i := 1 to n + 1
      invariant forall k :: 0 <= k < colonp + n - (i - 1) ==> tmp[k] == was[k]
      invariant forall k :: colonp + n - (i - 1) <= k < 16 - (i - 1) ==> tmp[k] == 0
      invariant forall k :: 16 - (i - 1) <= k < 16 ==> tmp[k] == was[k - (16 - tp)]
    {
      tmp[16 - i] := tmp[colonp + n - i];
      tmp[colonp + n - i] := 0;
    }
    var pre := was[..tp];
    assert pre[..colonp] == was[..colonp] && pre[colonp..] == was[colonp..tp];
    ZerosAt(16 - tp);
    assert tmp[..] == was[..colonp] + Zeros(16 - tp) + was[colonp..tp];
  }

  lemma {:induction false} ZerosAt(n: nat)
    ensures forall k :: 0 <= k < n ==> Zeros(n)[k] == 0
  {
    if n > 0 {
      ZerosAt(n - 1);
    }
  }

  // inet_pton6 is at position i, in a token that began at curtok, with `bytes` written.
  ghost predicate At6(src: string, i: nat, curtok: nat, bytes: seq<Byte>, colonp: int, val: nat) {
    && curtok <= i <= |src| && i - curtok <= 4
    && (forall k :: curtok <= k < i ==> IsHex(src[k]))
    && val == GroupValue(src[curtok..i])
    && -1 <= colonp <= |bytes| <= 16
    && Value6(src) == Parse6(src[curtok..], bytes, colonp)
  }

  lemma {:induction false} HexStep(src: string, i: nat, curtok: nat, bytes: seq<Byte>, colonp: int, val: nat)
    requires At6(src, i, curtok, bytes, colonp, val) && i < |src| && IsHex(src[i])
    ensures if i - curtok == 4 then Value6(src) == None
            else At6(src, i + 1, curtok, bytes, colonp, val * 16 + HexValue(src[i]))
  {
    var s := src[curtok..];
    if i - curtok == 4 {
      assert HexRun(s) > 4 by {
        assert HexRun(s) < |s| ==> !IsHex(s[HexRun(s)]);
        assert forall k :: 0 <= k <= 4 ==> s[k] == src[curtok + k];
      }
    } else {
      assert src[curtok..i + 1][..i - curtok] == src[curtok..i];
    }
  }

  lemma {:induction false} TokenEnd(src: string, i: nat, curtok: nat, bytes: seq<Byte>, colonp: int, val: nat)
    requires At6(src, i, curtok, bytes, colonp, val) && (i == |src| || !IsHex(src[i]))
    ensures var s := src[curtok..];
      && HexRun(s) == i - curtok && s[..i - curtok] == src[curtok..i] && val < 0x1_0000
      && (i < |src| ==> s[i - curtok] == src[i] && s[i - curtok + 1..] == src[i + 1..])
    ensures i > curtok ==> IsGroup(src[curtok..i]) && GroupBytes(src[curtok..i]) == [val / 256, val % 256]
  {
    HexRunIs(src[curtok..], i - curtok);
    GroupBound(src[curtok..i]);
  }

  lemma {:induction false} ColonStep(src: string, i: nat, curtok: nat, bytes: seq<Byte>, colonp: int, val: nat)
    requires At6(src, i, curtok, bytes, colonp, val) && i < |src| && src[i] == ':'
    ensures val < 0x1_0000
    ensures i == curtok ==> if colonp != -1 then Value6(src) == None else At6(src, i + 1, i + 1, bytes, |bytes|, 0)
    ensures i > curtok ==> if i + 1 == |src| || |bytes| + 2 > 16 then Value6(src) == None
                           else At6(src, i + 1, i + 1, bytes + [val / 256, val % 256], colonp, 0)
  {
    TokenEnd(src, i, curtok, bytes, colonp, val);
  }

  lemma {:induction false} OtherStep(src: string, i: nat, curtok: nat, bytes: seq<Byte>, colonp: int, val: nat)
    requires At6(src, i, curtok, bytes, colonp, val) && i < |src| && !IsHex(src[i]) && src[i] != ':'
    ensures var q := Parse4(src[curtok..], [], 0, false);
      if src[i] == '.' && |bytes| + 4 <= 16 && q.Some? then
        |q.value| == 4 && Value6(src) == Finish(bytes + q.value, colonp)
      else Value6(src) == None
  {
    TokenEnd(src, i, curtok, bytes, colonp, val);
    if Parse4(src[curtok..], [], 0, false).Some? {
      Parse4Exact(src[curtok..], Parse4(src[curtok..], [], 0, false).value);
    }
  }

  lemma {:induction false} EndStep(src: string, curtok: nat, bytes: seq<Byte>, colonp: int, val: nat)
    requires At6(src, |src|, curtok, bytes, colonp, val)
    ensures val < 0x1_0000
    ensures if curtok == |src| then Value6(src) == Finish(bytes, colonp)
            else if |bytes| + 2 > 16 then Value6(src) == None
            else Value6(src) == Finish(bytes + [val / 256, val % 256], colonp)
  {
    TokenEnd(src, |src|, curtok, bytes, colonp, val);
    assert src[curtok..] == src[curtok..|src|];
  }

  lemma {:induction false} Begin6(src: string, i: nat)
    requires i <= |src| && i == if src != "" && src[0] == ':' then 1 else 0
    ensures i == 1 && (|src| == 1 || src[1] != ':') ==> Value6(src) == None
    ensures i == 0 || (|src| > 1 && src[1] == ':') ==> At6(src, i, i, [], -1, 0)
  {
    assert src[0..] == src && src[i..i] == "";
  }

  // tmp holds the bytes written so far, and zeros.
  ghost predicate Holds(tmp: array<Byte>, bytes: seq<Byte>)
    reads tmp
  {
    tmp.Length == 16 && |bytes| <= 16 && tmp[..|bytes|] == bytes && forall k :: |bytes| <= k < 16 ==> tmp[k] == 0
  }

  method Store(tmp: array<Byte>, tp: nat, val: nat, ghost bytes: seq<Byte>)
    requires Holds(tmp, bytes) && tp == |bytes| <= 14 && val < 0x1_0000
    modifies tmp
    ensures Holds(tmp, bytes + [val / 256, val % 256])
  {
    tmp[tp] := val / 256;
    tmp[tp + 1] := val % 256;
    assert tmp[..tp + 2] == tmp[..tp] + [tmp[tp], tmp[tp + 1]];
  }

  method Store4(tmp: array<Byte>, tp: nat, q: seq<Byte>, ghost bytes: seq<Byte>)
    requires Holds(tmp, bytes) && tp == |bytes| <= 12 && |q| == 4
    modifies tmp
    ensures Holds(tmp, bytes + q)
  {
    tmp[tp], tmp[tp + 1], tmp[tp + 2], tmp[tp + 3] := q[0], q[1], q[2], q[3];
    assert tmp[..tp + 4] == tmp[..tp] + q;
  }

  method Zeroed() returns (tmp: array<Byte>)
    ensures fresh(tmp) && Holds(tmp, [])
  {
    tmp := new Byte[16](_ => 0);
  }

  // Lines 287-306.
  method Conclude(tmp: array<Byte>, tp: nat, colonp: int, ghost bytes: seq<Byte>) returns (r: Option<seq<Byte>>)
    requires Holds(tmp, bytes) && tp == |bytes| && -1 <= colonp <= tp
    modifies tmp
    ensures r == Finish(bytes, colonp)
  {
    if colonp != -1 {
      if tp == 16 {
        return None;
      }
      ShiftRight(tmp, tp, colonp);
    } else if tp != 16 {
      return None;
    }
    assert tmp.Length == 16 && |bytes| == 16 ==> tmp[..16] == tmp[..];
    return Some(tmp[..]);
  }

  // inet_pton6: accepts exactly the address texts of RFC 4291, with their value.
  method InetPton6(src: string) returns (r: Option<seq<Byte>>)
    ensures r == Value6(src)
    ensures forall v :: r == Some(v) <==> Denotes6(src, v)
  {
    forall v ensures Value6(src) == Some(v) <==> Denotes6(src, v) {
      Value6Exact(src, v);
    }
    r := Scan6(src);
  }

  method Scan6(src: string) returns (r: Option<seq<Byte>>)
    ensures r == Value6(src)
  {
    hide *;
    var tmp := Zeroed();
    var tp: nat, colonp, i: nat := 0, -1, 0;
    Begin6(src, if src != "" && src[0] == ':' then 1 else 0);
    if src != "" && src[0] == ':' {
      i := i + 1;
      if i == |src| || src[i] != ':' {
        return None;
      }
    }
    var curtok, seen, val: nat := i, 0, 0;
    ghost var bytes: seq<Byte> := [];
    while i < |src|
      invariant curtok <= i <= |src| && seen == i - curtok <= 4 && At6(src, i, curtok, bytes, colonp, val)
      invariant Holds(tmp, bytes) && tp == |bytes| <= 16 && -1 <= colonp <= tp && (seen == 0 ==> val == 0)
    {
      var ch := src[i];
      if IsHex(ch) {
        HexStep(src, i, curtok, bytes, colonp, val);
        val := val * 16 + HexValue(ch);
        i, seen := i + 1, seen + 1;
        if seen > 4 {
          return None;
        }
        continue;
      }
      if ch == ':' {
        ColonStep(src, i, curtok, bytes, colonp, val);
        i := i + 1;
        curtok := i;
        if seen == 0 {
          if colonp != -1 {
            return None;
          }
          colonp := tp;
          continue;
        } else if i == |src| {
          return None;
        }
        if tp + 2 > 16 {
          return None;
        }
        Store(tmp, tp, val, bytes);
        bytes := bytes + [val / 256, val % 256];
        tp, seen, val := tp + 2, 0, 0;
        continue;
      }
      OtherStep(src, i, curtok, bytes, colonp, val);
      if ch == '.' && tp + 4 <= 16 {
        var q := InetPton4(src[curtok..]);
        if q.Some? {
          Store4(tmp, tp, q.value, bytes);
          r := Conclude(tmp, tp + 4, colonp, bytes + q.value);
          return;
        }
      }
      return None;
    }
    EndStep(src, curtok, bytes, colonp, val);
    if seen != 0 {
      if tp + 2 > 16 {
        return None;
      }
      Store(tmp, tp, val, bytes);
      bytes := bytes + [val / 256, val % 256];
      tp := tp + 2;
    }
    r := Conclude(tmp, tp, colonp, bytes);
  }

  // -- The interface -------------------------------------------------------------------------

  function IndexOf(s: string, c: char): (n: nat)
    ensures n <= |s| && (n < |s| ==> s[n] == c) && forall i :: 0 <= i < n ==> s[i] != c
  {
    if s == "" || s[0] == c then 0 else 1 + IndexOf(s[1..], c)
  }

  // uv_inet_pton; a zone is cut off an IPv6 address at the first percent sign, and what is
  // before it must fit the buffer.
  method InetPton(af: Family, src: string) returns (r: Result<seq<Byte>>)
    ensures af == AF_OTHER ==> r == Err(EAFNOSUPPORT)
    ensures af == AF_INET ==> forall q :: r == Ok(q) <==> Denotes4(src, q)
    ensures af == AF_INET6 ==> var n := IndexOf(src, '%');
      forall v :: r == Ok(v) <==> Denotes6(src[..n], v) && (n == |src| || n < ADDRSTRLEN6)
    ensures r.Err? && af != AF_OTHER ==> r == Err(EINVAL)
  {
    match af
    case AF_INET =>
      var q := InetPton4(src);
      return if q.Some? then Ok(q.value) else Err(EINVAL);
    case AF_INET6 =>
      var n := IndexOf(src, '%');
      if n < |src| && n > ADDRSTRLEN6 - 1 {
        return Err(EINVAL);
      }
      assert n == |src| ==> src[..n] == src;
      var v := InetPton6(src[..n]);
      return if v.Some? then Ok(v.value) else Err(EINVAL);
    case AF_OTHER =>
      return Err(EAFNOSUPPORT);
  }

  predicate TextChar(c: char) {
    IsHex(c) || c == ':' || c == '.'
  }

  lemma {:induction false} RowChars(r: Row)
    requires RowOk(r, true)
    ensures forall i :: 0 <= i < |RowText(r)| ==> TextChar(RowText(r)[i])
  {
    if r.Group? && !r.rest.End? {
      RowChars(r.rest);
    }
  }

  lemma {:induction false} IndexIs(s: string, c: char, n: nat)
    requires n <= |s| && (n < |s| ==> s[n] == c) && forall i :: 0 <= i < n ==> s[i] != c
    ensures IndexOf(s, c) == n
  {
    if n > 0 {
      IndexIs(s[1..], c, n - 1);
    }
  }

  // An address text with a zone behind it is read as the address.
  lemma {:induction false} ZoneIgnored(a: Address, zone: string)
    requires AddressOk(a) && (zone == "" || zone[0] == '%')
    ensures var s := AddressText(a) + zone;
      s[..IndexOf(s, '%')] == AddressText(a) && Denotes6(s[..IndexOf(s, '%')], AddressBytes(a))
  {
    var text := AddressText(a);
    if a.Plain? {
      RowChars(a.row);
    } else {
      RowChars(a.before);
      RowChars(a.after);
    }
    assert forall i :: 0 <= i < |text| ==> TextChar(text[i]);
    IndexIs(text + zone, '%', |text|);
    assert (text + zone)[..|text|] == text;
  }
}
