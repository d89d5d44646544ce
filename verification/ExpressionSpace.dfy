/** White space, by the code points that Unicode gives the property and their UTF-8 texts. */
module ExpressionSpaces {
  import opened Expressions

  /** The code points of unicode.IsSpace. */
  predicate IsSpaceRune(cp: nat) {
    cp in {9, 10, 11, 12, 13, 32, 0x85, 0xA0, 0x1680, 0x2028, 0x2029, 0x202F, 0x205F, 0x3000} || 0x2000 <= cp <= 0x200A
  }

  /** The bytes of a code point below 0x10000, as section 3 of RFC 3629 lays them out. */
  function Utf8(cp: nat): string
    requires cp < 0x10000
  {
    if cp < 0x80 then [cp as char]
    else if cp < 0x800 then [(0xC0 + cp / 64) as char, (0x80 + cp % 64) as char]
    else [(0xE0 + cp / 4096) as char, (0x80 + cp / 64 % 64) as char, (0x80 + cp % 64) as char]
  }

  lemma SpaceRuneSmall(cp: nat)
    ensures IsSpaceRune(cp) ==> cp < 0x10000
  {
  }

  /** Inside an expression a byte is a space if the code point of its value is one. */
  lemma SpaceByte(c: char)
    requires c as int < 256
    ensures IsSpace(c) <==> IsSpaceRune(c as int)
  {
  }

  /** The texts that TrimSpace knows are exactly those of the space runes of their lengths. */
  lemma Space2(s: string) returns (cp: nat)
    requires IsSpace2(s)
    ensures IsSpaceRune(cp) && cp < 0x10000 && Utf8(cp) == s
  {
    cp := Byte(s, 1);
  }

  lemma Space3(s: string) returns (cp: nat)
    requires IsSpace3(s)
    ensures IsSpaceRune(cp) && cp < 0x10000 && Utf8(cp) == s
  {
    var (a, b, c) := (Byte(s, 0), Byte(s, 1), Byte(s, 2));
    cp := if a == 0xE1 then 0x1680 else if a == 0xE3 then 0x3000 else if b == 0x81 then 0x205F else 0x2000 + (c - 0x80);
    assert s == [a as char, b as char, c as char];
  }

  lemma RuneIsSpace(cp: nat)
    requires IsSpaceRune(cp) && cp < 0x10000
    ensures var u := Utf8(cp);
            || (|u| == 1 && IsAsciiSpace(u[0]))
            || (|u| == 2 && IsSpace2(u))
            || (|u| == 3 && IsSpace3(u))
  {
  }

  // ---------- At either end of a text ----------

  /** What TrimSpace takes from the front of a text is the text of a space rune, and it takes any that is there. */
  lemma LeadingExact(s: string)
    ensures LeadingSpace(s) > 0 <==> exists cp :: cp < 0x10000 && IsSpaceRune(cp) && Utf8(cp) <= s
    ensures forall cp :: cp < 0x10000 && IsSpaceRune(cp) && Utf8(cp) <= s ==> LeadingSpace(s) == |Utf8(cp)|
  {
    hide IsSpaceRune, Utf8, IsSpace2, IsSpace3;
    if LeadingSpace(s) > 0 {
      var cp := LeadingRune(s);
      assert Utf8(cp) <= s;
    }
    forall cp | cp < 0x10000 && IsSpaceRune(cp) && Utf8(cp) <= s
      ensures LeadingSpace(s) == |Utf8(cp)| > 0
    {
      RuneIsSpace(cp);
      StartsOnce(s);
      assert s[..|Utf8(cp)|] == Utf8(cp);
    }
  }

  /** A text starts with at most one kind of space. */
  lemma StartsOnce(s: string)
    ensures |s| >= 2 && IsSpace2(s[..2]) ==> !IsAsciiSpace(s[0])
    ensures |s| >= 3 && IsSpace3(s[..3]) ==> !IsAsciiSpace(s[0]) && !IsSpace2(s[..2])
  {
  }

  lemma LeadingRune(s: string) returns (cp: nat)
    requires LeadingSpace(s) > 0
    ensures cp < 0x10000 && IsSpaceRune(cp) && Utf8(cp) == s[..LeadingSpace(s)]
  {
    hide IsSpace2, IsSpace3;
    if IsAsciiSpace(s[0]) {
      cp := s[0] as int;
    } else if |s| >= 2 && IsSpace2(s[..2]) {
      cp := Space2(s[..2]);
    } else {
      cp := Space3(s[..3]);
    }
  }

  lemma TrailingRune(s: string) returns (cp: nat)
    requires TrailingSpace(s) > 0
    ensures cp < 0x10000 && IsSpaceRune(cp) && Utf8(cp) == s[|s| - TrailingSpace(s)..]
  {
    hide IsSpace2, IsSpace3;
    if IsAsciiSpace(s[|s| - 1]) {
      cp := s[|s| - 1] as int;
    } else if |s| >= 2 && IsSpace2(s[|s| - 2..]) {
      cp := Space2(s[|s| - 2..]);
    } else {
      cp := Space3(s[|s| - 3..]);
    }
  }

  lemma EndsOnce(a: char, b: char, c: char)
    ensures IsSpace2([b, c]) ==> !IsAsciiSpace(c)
    ensures IsSpace3([a, b, c]) ==> !IsAsciiSpace(c) && !IsSpace2([b, c])
  {
    hide IsSpaceRune, Utf8;
  }

  lemma EndsInSpace(s: string, u: string)
    requires IsSuffix(u, s)
    requires (|u| == 1 && IsAsciiSpace(u[0])) || (|u| == 2 && IsSpace2(u)) || (|u| == 3 && IsSpace3(u))
    ensures TrailingSpace(s) == |u|
  {
    hide IsSpace2, IsSpace3, IsAsciiSpace, IsSpaceRune, Utf8;
    var n := |s|;
    assert u == s[n - |u|..];
    if |u| == 2 {
      assert s[n - 2..] == [s[n - 2], s[n - 1]];
      EndsOnce(' ', s[n - 2], s[n - 1]);
    } else if |u| == 3 {
      assert s[n - 2..] == [s[n - 2], s[n - 1]] && s[n - 3..] == [s[n - 3], s[n - 2], s[n - 1]];
      EndsOnce(s[n - 3], s[n - 2], s[n - 1]);
    }
  }

  lemma TrailingExact(s: string)
    ensures TrailingSpace(s) > 0 <==> exists cp :: cp < 0x10000 && IsSpaceRune(cp) && IsSuffix(Utf8(cp), s)
    ensures forall cp :: cp < 0x10000 && IsSpaceRune(cp) && IsSuffix(Utf8(cp), s) ==> TrailingSpace(s) == |Utf8(cp)|
  {
    hide IsSpaceRune, Utf8, IsSpace2, IsSpace3;
    if TrailingSpace(s) > 0 {
      var cp := TrailingRune(s);
      assert IsSuffix(Utf8(cp), s);
    }
    forall cp | cp < 0x10000 && IsSpaceRune(cp) && IsSuffix(Utf8(cp), s)
      ensures TrailingSpace(s) == |Utf8(cp)| > 0
    {
      RuneIsSpace(cp);
      EndsInSpace(s, Utf8(cp));
    }
  }

  // ---------- The whole of TrimSpace ----------

  ghost predicate AllSpace(runes: seq<nat>) {
    forall i :: 0 <= i < |runes| ==> runes[i] < 0x10000 && IsSpaceRune(runes[i])
  }

  function Text(runes: seq<nat>): string
    requires forall i :: 0 <= i < |runes| ==> runes[i] < 0x10000
  {
    if runes == [] then "" else Utf8(runes[0]) + Text(runes[1..])
  }

  lemma {:induction false} TextJoin(a: seq<nat>, b: seq<nat>)
    requires AllSpace(a) && AllSpace(b)
    ensures AllSpace(a + b) && Text(a + b) == Text(a) + Text(b)
  {
    hide Utf8, IsSpaceRune;
    if a == [] {
      assert a + b == b;
    } else {
      assert (a + b)[1..] == a[1..] + b;
      TextJoin(a[1..], b);
    }
  }

  lemma TrimLeftStep(s: string)
    ensures LeadingSpace(s) == 0 ==> TrimLeft(s) == s
    ensures LeadingSpace(s) > 0 ==> TrimLeft(s) == TrimLeft(s[LeadingSpace(s)..])
  {
    hide LeadingSpace;
  }

  lemma {:induction false} TrimLeftExact(s: string) returns (lead: seq<nat>)
    ensures AllSpace(lead) && s == Text(lead) + TrimLeft(s) && LeadingSpace(TrimLeft(s)) == 0
    decreases |s|
  {
    hide IsSpaceRune, Utf8, LeadingSpace, TrimLeft, Text;
    var n := LeadingSpace(s);
    TrimLeftStep(s);
    if n > 0 {
      var cp := LeadingRune(s);
      var rest := TrimLeftExact(s[n..]);
      TextOne(cp);
      TextJoin([cp], rest);
      lead := [cp] + rest;
      assert s == s[..n] + s[n..];
    } else {
      lead := [];
      NoText();
    }
  }

  lemma TrimRightStep(s: string)
    ensures TrailingSpace(s) == 0 ==> TrimRight(s) == s
    ensures TrailingSpace(s) > 0 ==> TrimRight(s) == TrimRight(s[..|s| - TrailingSpace(s)])
  {
    hide TrailingSpace;
  }

  lemma TextOne(cp: nat)
    requires cp < 0x10000
    ensures Text([cp]) == Utf8(cp)
  {
    hide Utf8;
    assert [cp][1..] == [] && Text([]) == "";
  }

  lemma {:induction false} TrimRightExact(s: string) returns (trail: seq<nat>)
    ensures AllSpace(trail) && s == TrimRight(s) + Text(trail) && TrailingSpace(TrimRight(s)) == 0
    decreases |s|
  {
    hide IsSpaceRune, Utf8, TrailingSpace, TrimRight, Text;
    var n := TrailingSpace(s);
    TrimRightStep(s);
    if n > 0 {
      var cp := TrailingRune(s);
      var rest := TrimRightExact(s[..|s| - n]);
      TextOne(cp);
      TextJoin(rest, [cp]);
      trail := rest + [cp];
      assert s == s[..|s| - n] + s[|s| - n..];
    } else {
      trail := [];
      NoText();
    }
  }

  lemma NoText()
    ensures Text([]) == ""
  {
  }

  lemma PrefixUntrimmed(t: string, s: string)
    requires t <= s && LeadingSpace(s) == 0
    ensures LeadingSpace(t) == 0
  {
    hide IsSpaceRune, Utf8, LeadingSpace;
    LeadingExact(s);
    LeadingExact(t);
  }

  /** TrimSpace takes white space from both ends, nothing else, and all of it. */
  lemma TrimExact(s: string) returns (lead: seq<nat>, trail: seq<nat>)
    ensures AllSpace(lead) && AllSpace(trail) && s == Text(lead) + TrimSpace(s) + Text(trail)
    ensures forall cp :: cp < 0x10000 && IsSpaceRune(cp) ==> !(Utf8(cp) <= TrimSpace(s)) && !IsSuffix(Utf8(cp), TrimSpace(s))
  {
    hide IsSpaceRune, Utf8, LeadingSpace, TrailingSpace, TrimLeft, TrimRight, Text;
    lead := TrimLeftExact(s);
    trail := TrimRightExact(TrimLeft(s));
    var t := TrimSpace(s);
    assert t <= TrimLeft(s);
    PrefixUntrimmed(t, TrimLeft(s));
    LeadingExact(t);
    TrailingExact(t);
  }
}
