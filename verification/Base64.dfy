/** The standard base64 encoding of RFC 4648, section 4, as Go's base64.StdEncoding writes and reads it. */
module Base64 {
  import opened Bytes
  import opened Options

  type Sextet = n: int | 0 <= n < 64

  const PAD := '='

  function Letter(n: Sextet): (c: char) {
    if n < 26 then ('A' as int + n) as char
    else if n < 52 then ('a' as int + n - 26) as char
    else if n < 62 then ('0' as int + n - 52) as char
    else if n == 62 then '+' else '/'
  }

  function Value(c: char): Option<Sextet> {
    if 'A' <= c <= 'Z' then Some(c as int - 'A' as int)
    else if 'a' <= c <= 'z' then Some(c as int - 'a' as int + 26)
    else if '0' <= c <= '9' then Some(c as int - '0' as int + 52)
    else if c == '+' then Some(62) else if c == '/' then Some(63) else None
  }

  lemma ValueLetter(n: Sextet)
    ensures Value(Letter(n)) == Some(n) && Letter(n) != PAD && Letter(n) != '\r' && Letter(n) != '\n'
  {
  }

  /** Table 1 of RFC 4648, section 4. */
  lemma LetterExact(n: Sextet)
    ensures n < 26 ==> Letter(n) == "ABCDEFGHIJKLMNOPQRSTUVWXYZ"[n]
    ensures 26 <= n < 52 ==> Letter(n) == "abcdefghijklmnopqrstuvwxyz"[n - 26]
    ensures 52 <= n < 62 ==> Letter(n) == "0123456789"[n - 52]
    ensures n == 62 ==> Letter(n) == '+'
    ensures n == 63 ==> Letter(n) == '/'
  {
  }

  // ---------- Encoding ----------

  function EncodeGroup(a: Byte, b: Byte, c: Byte): (g: string)
    ensures |g| == 4
  {
    [Letter(a / 4), Letter(a % 4 * 16 + b / 16), Letter(b % 16 * 4 + c / 64), Letter(c % 64)]
  }

  function Encode(bytes: seq<Byte>): string {
    if |bytes| == 0 then ""
    else if |bytes| == 1 then EncodeGroup(bytes[0], 0, 0)[..2] + "=="
    else if |bytes| == 2 then EncodeGroup(bytes[0], bytes[1], 0)[..3] + "="
    else EncodeGroup(bytes[0], bytes[1], bytes[2]) + Encode(bytes[3..])
  }

  /** The letters of three bytes stand for the four digits, in base 64, of the number that the bytes are in base 256. */
  lemma GroupExact(a: Byte, b: Byte, c: Byte)
    ensures var (g, n) := (EncodeGroup(a, b, c), (a as int) * 65536 + (b as int) * 256 + (c as int));
            && 0 <= n < 64 * 64 * 64 * 64
            && g == [Letter(n / 262144), Letter(n / 4096 % 64), Letter(n / 64 % 64), Letter(n % 64)]
  {
    hide Letter;
    FourDigits(a / 4, a % 4 * 16 + b / 16, b % 16 * 4 + c / 64, c % 64);
    var (p, q, r, t) := (a / 4, a % 4 * 16 + b / 16, b % 16 * 4 + c / 64, c % 64);
    assert a == p * 4 + a % 4 && b == b / 16 * 16 + b % 16 && c == c / 64 * 64 + t;
    assert (a as int) * 65536 + (b as int) * 256 + (c as int) == ((p * 64 + q) * 64 + r) * 64 + t;
  }

  lemma FourDigits(p: Sextet, q: Sextet, r: Sextet, t: Sextet)
    ensures var n := ((p * 64 + q) * 64 + r) * 64 + t;
            0 <= n < 64 * 64 * 64 * 64 && n / 262144 == p && n / 4096 % 64 == q && n / 64 % 64 == r && n % 64 == t
  {
    var n := ((p * 64 + q) * 64 + r) * 64 + t;
    assert n == p * 262144 + (q * 4096 + r * 64 + t);
    assert n / 4096 == p * 64 + q;
    assert n / 64 == (p * 64 + q) * 64 + r;
  }

  lemma Tails()
    ensures Encode([98]) == "Yg==" && Encode([98, 97]) == "YmE=" && Encode([98, 97, 114]) == "YmFy"
  {
    assert [98, 97, 114][3..] == [];
    assert Encode([]) == "" && "YmFy" + "" == "YmFy";
  }

  lemma Foo(tail: seq<Byte>)
    ensures Encode([102, 111, 111] + tail) == "Zm9v" + Encode(tail)
  {
    assert ([102, 111, 111] + tail)[3..] == tail;
    assert EncodeGroup(102, 111, 111) == "Zm9v";
    if tail == [] {
      assert Encode(tail) == "";
    }
  }

  /** The last vectors of RFC 4648, section 10, which have two, one and no sign of padding. */
  lemma Vectors()
    ensures Encode([102, 111, 111, 98]) == "Zm9vYg=="
    ensures Encode([102, 111, 111, 98, 97]) == "Zm9vYmE="
    ensures Encode([102, 111, 111, 98, 97, 114]) == "Zm9vYmFy"
  {
    hide Encode;
    Tails();
    Foo([98]);
    Foo([98, 97]);
    Foo([98, 97, 114]);
    assert [102, 111, 111] + [98] == [102, 111, 111, 98];
    assert [102, 111, 111] + [98, 97] == [102, 111, 111, 98, 97];
    assert [102, 111, 111] + [98, 97, 114] == [102, 111, 111, 98, 97, 114];
  }

  // ---------- Decoding ----------

  /** Line breaks are ignored wherever they are. */
  function Unwrapped(s: string): string {
    if s == "" then ""
    else Unwrapped(s[..|s| - 1]) + if s[|s| - 1] == '\r' || s[|s| - 1] == '\n' then "" else [s[|s| - 1]]
  }

  function FirstByte(p: Sextet, q: Sextet): Byte {
    p * 4 + q / 16
  }

  function SecondByte(q: Sextet, r: Sextet): Byte {
    q % 16 * 16 + r / 4
  }

  function ThirdByte(r: Sextet, s: Sextet): Byte {
    r % 4 * 64 + s
  }

  /** Four letters at a time. Padding may stand only at the very end; bits that no byte uses are not looked at. */
  function DecodeQuanta(s: string): Option<seq<Byte>> {
    if s == "" then Some([])
    else if |s| < 4 then None
    else
      var p, q, r, t := Value(s[0]), Value(s[1]), Value(s[2]), Value(s[3]);
      if p.None? || q.None? then None
      else if s[2] == PAD then
        if s[3] == PAD && |s| == 4 then Some([FirstByte(p.value, q.value)]) else None
      else if r.None? then None
      else if s[3] == PAD then
        if |s| == 4 then Some([FirstByte(p.value, q.value), SecondByte(q.value, r.value)]) else None
      else if t.None? then None
      else
        var rest := DecodeQuanta(s[4..]);
        if rest.None? then None
        else
          Some([FirstByte(p.value, q.value), SecondByte(q.value, r.value), ThirdByte(r.value, t.value)] + rest.value)
  }

  function Decode(s: string): Option<seq<Byte>> {
    DecodeQuanta(Unwrapped(s))
  }

  // ---------- Decoding undoes encoding ----------

  /** The three bytes of a group come back from its sextets. */
  lemma GroupRoundTrip(a: Byte, b: Byte, c: Byte)
    ensures FirstByte(a / 4, a % 4 * 16 + b / 16) == a
    ensures SecondByte(a % 4 * 16 + b / 16, b % 16 * 4 + c / 64) == b
    ensures ThirdByte(b % 16 * 4 + c / 64, c % 64) == c
  {
  }

  lemma GroupLetters(a: Byte, b: Byte, c: Byte)
    ensures var g := EncodeGroup(a, b, c);
            && Value(g[0]) == Some(a / 4) && Value(g[1]) == Some(a % 4 * 16 + b / 16)
            && Value(g[2]) == Some(b % 16 * 4 + c / 64) && Value(g[3]) == Some(c % 64)
            && forall i :: 0 <= i < 4 ==> g[i] != PAD && g[i] != '\r' && g[i] != '\n'
  {
    hide Letter, Value;
    ValueLetter(a / 4);
    ValueLetter(a % 4 * 16 + b / 16);
    ValueLetter(b % 16 * 4 + c / 64);
    ValueLetter(c % 64);
  }

  lemma {:induction false} QuantaRoundTrip(bytes: seq<Byte>)
    ensures DecodeQuanta(Encode(bytes)) == Some(bytes)
  {
    hide Letter, Value, EncodeGroup, FirstByte, SecondByte, ThirdByte;
    if |bytes| == 0 {
    } else if |bytes| == 1 {
      GroupLetters(bytes[0], 0, 0);
      GroupRoundTrip(bytes[0], 0, 0);
      assert bytes == [bytes[0]];
    } else if |bytes| == 2 {
      GroupLetters(bytes[0], bytes[1], 0);
      GroupRoundTrip(bytes[0], bytes[1], 0);
      assert bytes == [bytes[0], bytes[1]];
    } else {
      GroupLetters(bytes[0], bytes[1], bytes[2]);
      GroupRoundTrip(bytes[0], bytes[1], bytes[2]);
      QuantaRoundTrip(bytes[3..]);
      assert Encode(bytes)[4..] == Encode(bytes[3..]);
      assert bytes == [bytes[0], bytes[1], bytes[2]] + bytes[3..];
    }
  }

  lemma {:induction false} EncodeHasNoBreaks(bytes: seq<Byte>)
    ensures forall i :: 0 <= i < |Encode(bytes)| ==> Encode(bytes)[i] != '\r' && Encode(bytes)[i] != '\n'
  {
    hide Letter, Value, EncodeGroup;
    if |bytes| == 0 {
    } else if |bytes| == 1 {
      GroupLetters(bytes[0], 0, 0);
    } else if |bytes| == 2 {
      GroupLetters(bytes[0], bytes[1], 0);
    } else {
      GroupLetters(bytes[0], bytes[1], bytes[2]);
      EncodeHasNoBreaks(bytes[3..]);
    }
  }

  lemma {:induction false} NothingToUnwrap(s: string)
    requires forall i :: 0 <= i < |s| ==> s[i] != '\r' && s[i] != '\n'
    ensures Unwrapped(s) == s
  {
    if s != "" {
      NothingToUnwrap(s[..|s| - 1]);
    }
  }

  /** Every byte string comes back from its encoding. */
  lemma DecodeEncode(bytes: seq<Byte>)
    ensures Decode(Encode(bytes)) == Some(bytes)
  {
    hide Encode, DecodeQuanta, Unwrapped;
    QuantaRoundTrip(bytes);
    EncodeHasNoBreaks(bytes);
    NothingToUnwrap(Encode(bytes));
  }

  // ---------- Which texts decode ----------

  /** Letters of the alphabet and then k signs of padding, at most two, in groups of four. */
  ghost predicate IsPadded(s: string, k: nat) {
    && |s| % 4 == 0 && k <= 2 && k <= |s|
    && (forall i :: 0 <= i < |s| - k ==> Value(s[i]).Some?)
    && forall i :: |s| - k <= i < |s| ==> s[i] == PAD
  }

  ghost predicate Padded(s: string) {
    exists k :: IsPadded(s, k)
  }

  lemma PaddedNext(s: string, k: nat)
    requires |s| >= 4
    ensures |s| > 4 ==> (IsPadded(s, k) <==> (forall i :: 0 <= i < 4 ==> Value(s[i]).Some?) && IsPadded(s[4..], k))
  {
    hide Value;
    var t := s[4..];
    assert forall i :: 0 <= i < |t| ==> t[i] == s[i + 4];
    if |s| > 4 && IsPadded(s, k) {
      assert |s| >= 8;
    }
    if |s| > 4 && (forall i :: 0 <= i < 4 ==> Value(s[i]).Some?) && IsPadded(t, k) {
      forall i | 0 <= i < |s| - k
        ensures Value(s[i]).Some?
      {
        assert i >= 4 ==> s[i] == t[i - 4];
      }
    }
  }

  lemma PaddedFour(s: string)
    requires |s| == 4
    ensures Padded(s) <==> DecodeQuanta(s).Some?
  {
    hide FirstByte, SecondByte, ThirdByte;
    assert Value(PAD).None?;
    assert s[4..] == "";
    if DecodeQuanta(s).Some? {
      assert IsPadded(s, if s[2] == PAD then 2 else if s[3] == PAD then 1 else 0);
    }
  }

  lemma {:induction false} QuantaIff(s: string)
    ensures DecodeQuanta(s).Some? <==> Padded(s)
  {
    if s == "" {
      assert IsPadded(s, 0);
    } else if |s| == 4 {
      PaddedFour(s);
    } else if |s| > 4 {
      QuantaIff(s[4..]);
      forall k: nat
        ensures IsPadded(s, k) <==> (forall i :: 0 <= i < 4 ==> Value(s[i]).Some?) && IsPadded(s[4..], k)
      {
        PaddedNext(s, k);
      }
      QuantaUnfold(s);
    }
  }

  lemma QuantaUnfold(s: string)
    requires |s| > 4
    ensures DecodeQuanta(s).Some? <==> (forall i :: 0 <= i < 4 ==> Value(s[i]).Some?) && DecodeQuanta(s[4..]).Some?
  {
    hide FirstByte, SecondByte, ThirdByte;
    assert Value(PAD).None?;
  }

  /** Only line breaks are passed over. */
  lemma {:induction false} UnwrappedExact(s: string)
    ensures Subsequence(Unwrapped(s), s)
    ensures forall c :: multiset(Unwrapped(s))[c] == if c == '\r' || c == '\n' then 0 else multiset(s)[c]
  {
    if s != "" {
      var front, last := s[..|s| - 1], s[|s| - 1];
      assert s == front + [last];
      UnwrappedExact(front);
      var u := Unwrapped(front);
      if last == '\r' || last == '\n' {
        SubsequenceSkip(u, front, last);
        assert Unwrapped(s) == u;
      } else {
        SubsequenceKeep(u, front, last);
      }
    }
  }

  /** A text decodes if and only if, its line breaks left out, it is letters in groups of four with the last group padded as
      need be. */
  lemma DecodesIff(s: string)
    ensures Decode(s).Some? <==> Padded(Unwrapped(s))
  {
    hide Padded;
    QuantaIff(Unwrapped(s));
  }

  lemma LetterValue(c: char)
    requires Value(c).Some?
    ensures Letter(Value(c).value) == c
  {
  }

  /** The sextets of a group come back from its bytes; those that no byte holds in full only in part. */
  lemma SextetsBack(p: Sextet, q: Sextet, r: Sextet, t: Sextet)
    ensures var (a, b, c) := (FirstByte(p, q), SecondByte(q, r), ThirdByte(r, t));
            && a / 4 == p && a % 4 * 16 + b / 16 == q && b % 16 * 4 + c / 64 == r && c % 64 == t
  {
  }

  /** e is s, but for letters before padding. */
  ghost predicate AlmostSame(e: string, s: string) {
    |e| == |s| && forall i :: 0 <= i < |s| ==> SameAt(e, s, i)
  }

  predicate SameAt(e: string, s: string, i: nat)
    requires i < |e| == |s|
  {
    e[i] == s[i] || (i + 1 < |s| && s[i + 1] == PAD)
  }

  lemma AlmostOne(s: string)
    requires |s| == 4 && s[3] == PAD && DecodeQuanta(s).Some?
    ensures AlmostSame(Encode(DecodeQuanta(s).value), s)
  {
    hide Letter, Value, FirstByte, SecondByte, ThirdByte;
    PadHasNoValue();
    var (p, q, r) := (Value(s[0]).value, Value(s[1]).value, if s[2] == PAD then 0 else Value(s[2]).value);
    SextetsBack(p, q, r, 0);
    LetterValue(s[0]);
    LetterValue(s[1]);
    var a, b := FirstByte(p, q), SecondByte(q, r);
    if s[2] == PAD {
      assert Encode([a]) == EncodeGroup(a, 0, 0)[..2] + "==";
    } else {
      assert Encode([a, b]) == EncodeGroup(a, b, 0)[..3] + "=";
    }
  }

  lemma AlmostFull(s: string, rest: seq<Byte>)
    requires |s| >= 4 && (forall i :: 0 <= i < 4 ==> Value(s[i]).Some?) && AlmostSame(Encode(rest), s[4..])
    ensures var (p, q, r, t) := (Value(s[0]).value, Value(s[1]).value, Value(s[2]).value, Value(s[3]).value);
            AlmostSame(Encode([FirstByte(p, q), SecondByte(q, r), ThirdByte(r, t)] + rest), s)
  {
    hide Letter, Value, FirstByte, SecondByte, ThirdByte;
    var (p, q, r, t) := (Value(s[0]).value, Value(s[1]).value, Value(s[2]).value, Value(s[3]).value);
    var (a, b, c) := (FirstByte(p, q), SecondByte(q, r), ThirdByte(r, t));
    SextetsBack(p, q, r, t);
    forall i | 0 <= i < 4
      ensures Letter(Value(s[i]).value) == s[i]
    {
      LetterValue(s[i]);
    }
    assert ([a, b, c] + rest)[3..] == rest;
    assert Encode([a, b, c] + rest) == EncodeGroup(a, b, c) + Encode(rest);
    assert EncodeGroup(a, b, c) == s[..4];
    AlmostJoin(Encode(rest), s);
  }

  lemma AlmostJoin(e: string, s: string)
    requires |s| >= 4 && AlmostSame(e, s[4..])
    ensures AlmostSame(s[..4] + e, s)
  {
    var tail, all := s[4..], s[..4] + e;
    forall i | 4 <= i < |s|
      ensures SameAt(all, s, i)
    {
      assert SameAt(e, tail, i - 4);
      assert all[i] == e[i - 4] && tail[i - 4] == s[i];
      assert i + 1 < |s| ==> tail[i - 4 + 1] == s[i + 1];
    }
  }

  /** A text decodes to bytes whose encoding it is, but for the letter before the padding, of which not all bits count. */
  lemma {:induction false} DecodedText(s: string)
    requires DecodeQuanta(s).Some?
    ensures AlmostSame(Encode(DecodeQuanta(s).value), s)
  {
    if s != "" {
      hide Letter, Value, FirstByte, SecondByte, ThirdByte, Encode, AlmostSame;
      PadHasNoValue();
      if s[3] == PAD {
        AlmostOne(s);
      } else {
        assert Value(s[2]).Some? && Value(s[3]).Some?;
        DecodedText(s[4..]);
        AlmostFull(s, DecodeQuanta(s[4..]).value);
      }
    }
  }

  lemma PadHasNoValue()
    ensures Value(PAD).None?
  {
  }
}
