/** `IPv6Address::insert`: the text of an address, and its reading by the rules of section 2.2 of
    RFC 4291. */
module Ipv6Text {
  import opened Wrappers
  import opened Flat
  import opened Search
  import opened Codec

  type Group = x: int | 0 <= x < 65536

  // ---------------------------------------------------------------- numbers

  function Digit(d: nat): (c: char)
    requires d < 16
    ensures c != ':' && c != ']'
  {
    if d < 10 then '0' + d as char else 'a' + (d - 10) as char
  }

  function DigitValue(c: char): Option<nat> {
    if '0' <= c <= '9' then Some((c - '0') as nat)
    else if 'a' <= c <= 'f' then Some((c - 'a') as nat + 10)
    else if 'A' <= c <= 'F' then Some((c - 'A') as nat + 10)
    else None
  }

  lemma DigitBack(d: nat)
    requires d < 16
    ensures DigitValue(Digit(d)) == Some(d)
  {
  }

  /** A number in hexadecimal, without leading zeros. */
  function Hex(n: nat): (s: string)
    ensures |s| >= 1 && forall k :: 0 <= k < |s| ==> s[k] != ':' && s[k] != ']'
  {
    if n < 16 then [Digit(n)] else Hex(n / 16) + [Digit(n % 16)]
  }

  function Decimal(n: nat): (s: string)
    ensures |s| >= 1
  {
    if n < 10 then [Digit(n)] else Decimal(n / 10) + [Digit(n % 10)]
  }

  /** The value of a hexadecimal string; None for a character that is not a digit. */
  function HexValue(s: string): Option<nat> {
    if s == "" then Some(0)
    else
      var hi, lo := HexValue(s[..|s| - 1]), DigitValue(s[|s| - 1]);
      if hi.Some? && lo.Some? then Some(hi.value * 16 + lo.value) else None
  }

  lemma {:induction false} HexBack(n: nat)
    ensures HexValue(Hex(n)) == Some(n)
  {
    DigitBack(n % 16);
    if n < 16 {
      assert Hex(n)[..0] == "";
    } else {
      HexBack(n / 16);
      assert Hex(n)[..|Hex(n)| - 1] == Hex(n / 16);
    }
  }

  /** The value of a decimal string; None for a character that is not a decimal digit. */
  function DecimalValue(s: string): Option<nat> {
    if s == "" then Some(0)
    else
      var hi, lo := DecimalValue(s[..|s| - 1]), DigitValue(s[|s| - 1]);
      if hi.Some? && lo.Some? && lo.value < 10 then Some(hi.value * 10 + lo.value) else None
  }

  lemma {:induction false} DecimalBack(n: nat)
    ensures DecimalValue(Decimal(n)) == Some(n)
  {
    DigitBack(n % 10);
    if n < 10 {
      assert Decimal(n)[..0] == "";
    } else {
      DecimalBack(n / 10);
      assert Decimal(n)[..|Decimal(n)| - 1] == Decimal(n / 10);
    }
  }

  lemma {:induction false} HexPlace(n: nat, k: nat)
    requires k < |Hex(n)|
    ensures Hex(n)[k] == Digit(n / Pow(16, |Hex(n)| - 1 - k) % 16)
  {
    hide Digit;
    if k == |Hex(n)| - 1 {
      assert Pow(16, 0) == 1;
    } else {
      var at := |Hex(n)| - 2 - k;
      HexPlace(n / 16, k);
      PowStep(16, at + 1);
      DivSplit(n, 16, Pow(16, at));
      hide Pow;
      assert Hex(n)[k] == Hex(n / 16)[k];
    }
  }

  lemma DigitChar(d: nat)
    requires d < 16
    ensures Digit(d) == "0123456789abcdef"[d]
  {
  }

  /** The digits are those of base 16 in lower case, the highest first. */
  lemma HexDigit(n: nat, k: nat)
    requires k < |Hex(n)|
    ensures Hex(n)[k] == "0123456789abcdef"[n / Pow(16, |Hex(n)| - 1 - k) % 16]
  {
    HexPlace(n, k);
    hide Pow, Hex;
    DigitChar(n / Pow(16, |Hex(n)| - 1 - k) % 16);
  }

  lemma {:induction false} DecimalPlace(n: nat, k: nat)
    requires k < |Decimal(n)|
    ensures Decimal(n)[k] == Digit(n / Pow(10, |Decimal(n)| - 1 - k) % 10)
  {
    hide Digit;
    if k == |Decimal(n)| - 1 {
      assert Pow(10, 0) == 1;
    } else {
      var at := |Decimal(n)| - 2 - k;
      DecimalPlace(n / 10, k);
      PowStep(10, at + 1);
      DivSplit(n, 10, Pow(10, at));
      hide Pow;
      assert Decimal(n)[k] == Decimal(n / 10)[k];
    }
  }

  /** Likewise in base 10. */
  lemma DecimalDigit(n: nat, k: nat)
    requires k < |Decimal(n)|
    ensures Decimal(n)[k] == "0123456789"[n / Pow(10, |Decimal(n)| - 1 - k) % 10]
  {
    DecimalPlace(n, k);
    hide Pow, Decimal;
    var d := n / Pow(10, |Decimal(n)| - 1 - k) % 10;
    DigitChar(d);
    assert "0123456789abcdef"[d] == "0123456789"[d];
  }

  /** No number has a leading zero but zero itself. */
  lemma {:induction false} NoLeadingZero(n: nat)
    ensures Hex(n)[0] == '0' <==> n == 0
    ensures Decimal(n)[0] == '0' <==> n == 0
  {
    if n >= 10 { NoLeadingZero(n / 10); }
    if n >= 16 { NoLeadingZero(n / 16); }
  }

  lemma HexLength(n: nat)
    requires n < 65536
    ensures |Hex(n)| <= 4
  {
    var a := n / 16;
    var b := a / 16;
    var c := b / 16;
    assert c < 16 && |Hex(c)| == 1;
    assert |Hex(b)| <= 2 && |Hex(a)| <= 3;
  }

  // ---------------------------------------------------------------- what is printed

  /** Groups joined by single colons. */
  function Join(gs: seq<Group>): string {
    if gs == [] then ""
    else if |gs| == 1 then Hex(gs[0])
    else Hex(gs[0]) + ":" + Join(gs[1..])
  }

  lemma {:induction false} JoinSnoc(gs: seq<Group>, g: Group)
    ensures Join(gs + [g]) == if gs == [] then Hex(g) else Join(gs) + ":" + Hex(g)
  {
    if |gs| <= 1 {
      assert gs == [] ==> gs + [g] == [g];
      assert |gs| == 1 ==> (gs + [g])[1..] == [g];
    } else {
      assert (gs + [g])[1..] == gs[1..] + [g];
      JoinSnoc(gs[1..], g);
      assert Hex(gs[0]) + ":" + (Join(gs[1..]) + ":" + Hex(g)) == Hex(gs[0]) + ":" + Join(gs[1..]) + ":" + Hex(g);
    }
  }

  /** The index of the first zero group, or the length. */
  function ZeroStart(gs: seq<Group>): (z: nat)
    ensures z <= |gs| && (z < |gs| ==> gs[z] == 0) && forall k :: 0 <= k < z ==> gs[k] != 0
  {
    if gs == [] || gs[0] == 0 then 0 else 1 + ZeroStart(gs[1..])
  }

  /** Where the run of zero groups that starts at z ends. */
  function ZeroEnd(gs: seq<Group>, z: nat): (e: nat)
    requires z <= |gs|
    ensures z <= e <= |gs| && (e < |gs| ==> gs[e] != 0) && forall k :: z <= k < e ==> gs[k] == 0
    decreases |gs| - z
  {
    if z == |gs| || gs[z] != 0 then z else ZeroEnd(gs, z + 1)
  }

  /** The first run of zero groups, of any length, becomes a double colon. */
  function Compressed(gs: seq<Group>): string {
    var z := ZeroStart(gs);
    if z == |gs| then Join(gs) else Join(gs[..z]) + "::" + Join(gs[ZeroEnd(gs, z)..])
  }

  /** A 16-bit word read from memory on the host, and `byteswapOnLittleEndian`. */
  function NetworkWord(b0: Byte, b1: Byte): Group {
    (b0 as int) * 256 + (b1 as int)
  }

  function HostWord(host: Endian, b0: Byte, b1: Byte): Group {
    if host == Little then NetworkWord(b1, b0) else NetworkWord(b0, b1)
  }

  function SwapOnLittle(host: Endian, v: Group): Group {
    if host == Little then v / 256 + 256 * (v % 256) else v
  }

  /** The i-th group of an address: its bytes in network order. */
  function GroupAt(raw: seq<Byte>, i: nat): Group
    requires 2 * i + 1 < |raw|
  {
    NetworkWord(raw[2 * i], raw[2 * i + 1])
  }

  function Groups(raw: seq<Byte>): (gs: seq<Group>)
    requires |raw| == 16
    ensures |gs| == 8
  {
    seq(8, i requires 0 <= i < 8 => GroupAt(raw, i))
  }

  lemma WordIsGroup(host: Endian, b0: Byte, b1: Byte)
    ensures SwapOnLittle(host, HostWord(host, b0, b1)) == NetworkWord(b0, b1)
    ensures HostWord(host, b0, b1) == 0 <==> NetworkWord(b0, b1) == 0
  {
  }

  /** The address as the host reads it: an array of eight words. */
  function HostWords(host: Endian, raw: seq<Byte>): (ws: seq<Group>)
    requires |raw| == 16
    ensures |ws| == 8
  {
    seq(8, i requires 0 <= i < 8 => HostWord(host, raw[2 * i], raw[2 * i + 1]))
  }

  lemma WordsAreGroups(host: Endian, raw: seq<Byte>)
    requires |raw| == 16
    ensures forall i :: 0 <= i < 8 ==>
              && SwapOnLittle(host, HostWords(host, raw)[i]) == Groups(raw)[i]
              && (HostWords(host, raw)[i] == 0 <==> Groups(raw)[i] == 0)
  {
    forall i | 0 <= i < 8
      ensures SwapOnLittle(host, HostWords(host, raw)[i]) == Groups(raw)[i]
      ensures (HostWords(host, raw)[i] == 0 <==> Groups(raw)[i] == 0)
    {
      WordIsGroup(host, raw[2 * i], raw[2 * i + 1]);
    }
  }

  /** The text after the first i groups. */
  function TextAt(gs: seq<Group>, i: nat): string
    requires i <= |gs|
  {
    var z := ZeroStart(gs);
    var e := ZeroEnd(gs, z);
    if i <= z then Join(gs[..i]) else if i <= e then Join(gs[..z]) else Join(gs[..z]) + "::" + Join(gs[e..i])
  }

  lemma TwoColons(a: string, c: string)
    ensures a + "::" + c == a + ":" + ":" + c
  {
  }

  lemma Regroup(a: string, b: string, c: string)
    ensures a + (b + ":" + c) == a + b + ":" + c
  {
  }

  lemma SkippedGroup(gs: seq<Group>, i: nat)
    requires i < |gs| && ZeroStart(gs) <= i < ZeroEnd(gs, ZeroStart(gs))
    ensures TextAt(gs, i + 1) == TextAt(gs, i)
  {
    assert gs[..i] == gs[..ZeroStart(gs)] || i > ZeroStart(gs);
  }

  lemma GroupBefore(gs: seq<Group>, i: nat)
    requires i < ZeroStart(gs)
    ensures TextAt(gs, i + 1) == TextAt(gs, i) + (if i > 0 then ":" else "") + Hex(gs[i])
  {
    Printed(gs, 0, 0, i);
    assert TextAt(gs, i) == Join(gs[..i]) && TextAt(gs, i + 1) == Join(gs[..i + 1]);
    hide TextAt, Hex;
    assert gs[..0] == [];
  }

  lemma GroupAtGap(gs: seq<Group>, i: nat)
    requires ZeroStart(gs) < i == ZeroEnd(gs, ZeroStart(gs)) < |gs|
    ensures TextAt(gs, i + 1) == TextAt(gs, i) + ":" + ":" + Hex(gs[i])
  {
    hide Hex, Join, ZeroStart, ZeroEnd;
    var z := ZeroStart(gs);
    Printed(gs, z, i, i);
    TwoColons(Join(gs[..z]), Hex(gs[i]));
  }

  lemma GroupAfter(gs: seq<Group>, i: nat)
    requires ZeroStart(gs) < ZeroEnd(gs, ZeroStart(gs)) < i < |gs|
    ensures TextAt(gs, i + 1) == TextAt(gs, i) + ":" + Hex(gs[i])
  {
    hide Hex, Join, ZeroStart, ZeroEnd;
    var z, e := ZeroStart(gs), ZeroEnd(gs, ZeroStart(gs));
    Printed(gs, z, e, i);
    Regroup(Join(gs[..z]) + "::", Join(gs[e..i]), Hex(gs[i]));
  }

  /** What each kind of group adds. */
  lemma TextStep(gs: seq<Group>, i: nat)
    requires i < |gs|
    ensures var z := ZeroStart(gs);
            var e := ZeroEnd(gs, z);
            var used := i > e && z < |gs|;
            && (gs[i] == 0 && !used ==> TextAt(gs, i + 1) == TextAt(gs, i) && z <= i < e)
            && (!(gs[i] == 0 && !used) ==>
                  var gap := i > 0 && gs[i - 1] == 0 && !used;
                  && (gap <==> i == e && z < i)
                  && TextAt(gs, i + 1) == TextAt(gs, i) + (if gap then ":" else "") + (if i > 0 then ":" else "")
                      + Hex(gs[i]))
  {
    hide TextAt, Hex;
    var z := ZeroStart(gs);
    var e := ZeroEnd(gs, z);
    var t := TextAt(gs, i);
    assert t + "" == t;
    if i < z { GroupBefore(gs, i); }
    else if i < e { SkippedGroup(gs, i); }
    else if i == e { GroupAtGap(gs, i); }
    else { GroupAfter(gs, i); }
  }

  lemma TextEnd(gs: seq<Group>)
    requires |gs| > 0
    ensures var z := ZeroStart(gs);
            var e := ZeroEnd(gs, z);
            Compressed(gs) == TextAt(gs, |gs|) + if !(|gs| > e && z < |gs|) && gs[|gs| - 1] == 0 then "::" else ""
  {
    assert gs[..|gs|] == gs;
    var e := ZeroEnd(gs, ZeroStart(gs));
    assert gs[e..|gs|] == gs[e..];
  }

  /** The loop of `insert`, on any host. */
  method InsertGroups(host: Endian, raw: seq<Byte>) returns (os: string)
    requires |raw| == 16
    ensures os == Compressed(Groups(raw))
  {
    hide Compressed, TextAt, Join, SwapOnLittle, HostWords, Groups;
    ghost var gs := Groups(raw);
    var addr := HostWords(host, raw);
    WordsAreGroups(host, raw);
    ghost var z := ZeroStart(gs);
    ghost var e := ZeroEnd(gs, z);
    TextStart(gs);
    os := "";
    var used := false;
    var i := 0;
    while i < 8
      invariant 0 <= i <= 8
      invariant used <==> z < 8 && i > e
      invariant os == TextAt(gs, i)
    {
      TextStep(gs, i);
      if addr[i] == 0 && !used {
        i := i + 1;
        continue;
      }
      if i > 0 && addr[i - 1] == 0 && !used {
        os := os + ":";
        used := true;
      }
      if i > 0 { os := os + ":"; }
      os := os + Hex(SwapOnLittle(host, addr[i]));
      i := i + 1;
    }
    TextEnd(gs);
    if !used && addr[7] == 0 { os := os + "::"; }
  }

  lemma TextStart(gs: seq<Group>)
    ensures TextAt(gs, 0) == ""
  {
  }

  /** What printing group i adds to the text. */
  lemma Printed(gs: seq<Group>, z: nat, e: nat, i: nat)
    requires i < |gs| && z <= e <= |gs|
    ensures Join(gs[..i + 1]) == if i == 0 then Hex(gs[i]) else Join(gs[..i]) + ":" + Hex(gs[i])
    ensures e <= i ==> Join(gs[e..i + 1]) == if e == i then Hex(gs[i]) else Join(gs[e..i]) + ":" + Hex(gs[i])
  {
    JoinSnoc(gs[..i], gs[i]);
    assert gs[..i + 1] == gs[..i] + [gs[i]];
    if e <= i {
      JoinSnoc(gs[e..i], gs[i]);
      assert gs[e..i + 1] == gs[e..i] + [gs[i]];
    }
  }

  // ---------------------------------------------------------------- reading it back

  /** One group: one to four hexadecimal digits. */
  function ReadGroup(s: string): Option<Group> {
    if 1 <= |s| <= 4 && HexValue(s).Some? && HexValue(s).value < 65536 then Some(HexValue(s).value) else None
  }

  /** Groups separated by single colons; the empty text has none. */
  function ReadGroups(s: string): Option<seq<Group>>
    decreases |s|
  {
    if s == "" then Some([])
    else
      var n := IndexOf(s, ':');
      var g := ReadGroup(s[..n]);
      if g.None? then None
      else if n == |s| then Some([g.value])
      else if n + 1 == |s| then None
      else
        var rest := ReadGroups(s[n + 1..]);
        if rest.Some? then Some([g.value] + rest.value) else None
  }

  predicate DoubleAt(s: string, k: nat) {
    k + 1 < |s| && s[k] == ':' && s[k + 1] == ':'
  }

  /** The index of the first double colon, or the length. */
  function DoubleIndex(s: string, k: nat): (n: nat)
    requires k <= |s|
    ensures k <= n <= |s| && (n < |s| ==> DoubleAt(s, n)) && forall j :: k <= j < n ==> !DoubleAt(s, j)
    decreases |s| - k
  {
    if k == |s| || DoubleAt(s, k) then k else DoubleIndex(s, k + 1)
  }

  function Zeros(n: nat): (gs: seq<Group>)
    ensures |gs| == n && forall k :: 0 <= k < n ==> gs[k] == 0
  {
    if n == 0 then [] else [0] + Zeros(n - 1)
  }

  /** Section 2.2 of RFC 4291: eight groups, or fewer around one double colon that stands for one
      or more groups of zeros. */
  function Expand(s: string): Option<seq<Group>> {
    var k := DoubleIndex(s, 0);
    if k == |s| then
      var gs := ReadGroups(s);
      if gs.Some? && |gs.value| == 8 then gs else None
    else
      var l, r := ReadGroups(s[..k]), ReadGroups(s[k + 2..]);
      if l.Some? && r.Some? && |l.value| + |r.value| <= 7 && DoubleIndex(s[k + 2..], 0) == |s| - k - 2
      then Some(l.value + Zeros(8 - |l.value| - |r.value|) + r.value)
      else None
  }

  lemma GroupBack(g: Group)
    ensures ReadGroup(Hex(g)) == Some(g)
  {
    HexBack(g);
    HexLength(g);
  }

  lemma ColonAfter(a: string, b: string)
    requires forall k :: 0 <= k < |a| ==> a[k] != ':'
    ensures IndexOf(a + ":" + b, ':') == |a| && IndexOf(a, ':') == |a|
  {
    var s := a + ":" + b;
    assert s[|a|] == ':';
    assert forall k :: 0 <= k < |a| ==> s[k] == a[k];
  }

  /** Joined groups neither start nor end with a colon and hold no two in a row. */
  lemma {:induction false} JoinColons(gs: seq<Group>)
    ensures var s := Join(gs);
            && (gs == [] ==> s == "")
            && (gs != [] ==> s != "" && s[0] != ':' && s[|s| - 1] != ':')
            && forall k :: 0 <= k < |s| ==> !DoubleAt(s, k)
  {
    if |gs| > 1 {
      JoinColons(gs[1..]);
      var a, b := Hex(gs[0]), Join(gs[1..]);
      var s := a + ":" + b;
      forall k | 0 <= k < |s| ensures !DoubleAt(s, k) {
        if k > |a| { assert s[k] == b[k - |a| - 1]; assert !DoubleAt(b, k - |a| - 1); }
      }
    }
  }

  lemma ReadLast(a: string, g: Group)
    requires ReadGroup(a) == Some(g) && forall k :: 0 <= k < |a| ==> a[k] != ':'
    ensures ReadGroups(a) == Some([g])
  {
    hide HexValue;
    ColonAfter(a, "");
    assert a[..|a|] == a;
  }

  lemma ReadNext(a: string, g: Group, b: string)
    requires ReadGroup(a) == Some(g) && forall k :: 0 <= k < |a| ==> a[k] != ':'
    requires b != "" && ReadGroups(b).Some?
    ensures ReadGroups(a + ":" + b) == Some([g] + ReadGroups(b).value)
  {
    hide HexValue;
    ColonAfter(a, b);
    var s := a + ":" + b;
    assert s[..|a|] == a && s[|a| + 1..] == b;
  }

  lemma JoinFirst(gs: seq<Group>)
    requires gs != []
    ensures Join(gs) == if |gs| == 1 then Hex(gs[0]) else Hex(gs[0]) + ":" + Join(gs[1..])
  {
  }

  lemma {:induction false} JoinBack(gs: seq<Group>)
    ensures ReadGroups(Join(gs)) == Some(gs)
  {
    if gs == [] {
      assert Join(gs) == "";
    } else {
      JoinBackNext(gs);
    }
  }

  lemma {:induction false} JoinBackNext(gs: seq<Group>)
    requires gs != []
    ensures ReadGroups(Join(gs)) == Some(gs)
  {
    hide ReadGroup, Hex, HexValue, ReadGroups, Join;
    GroupBack(gs[0]);
    JoinFirst(gs);
    if |gs| == 1 {
      ReadLast(Hex(gs[0]), gs[0]);
      assert gs == [gs[0]];
    } else {
      JoinBackNext(gs[1..]);
      JoinColons(gs[1..]);
      ReadNext(Hex(gs[0]), gs[0], Join(gs[1..]));
      assert gs == [gs[0]] + gs[1..];
    }
  }

  /** The only double colon of two joins around one. */
  lemma OneDouble(a: string, b: string, k: nat)
    requires a == "" || a[|a| - 1] != ':'
    requires b == "" || b[0] != ':'
    requires (forall j :: 0 <= j < |a| ==> !DoubleAt(a, j)) && (forall j :: 0 <= j < |b| ==> !DoubleAt(b, j))
    ensures DoubleAt(a + "::" + b, k) <==> k == |a|
  {
    var s := a + "::" + b;
    if k < |a| {
      assert s[k] == a[k];
      assert !DoubleAt(a, k);
    } else if k >= |a| + 2 && k + 1 < |s| {
      assert s[k] == b[k - |a| - 2] && s[k + 1] == b[k - |a| - 1];
      assert !DoubleAt(b, k - |a| - 2);
    }
  }

  lemma DoubleIndexIs(s: string, n: nat)
    requires n <= |s| && (n < |s| ==> DoubleAt(s, n)) && forall j :: 0 <= j < n ==> !DoubleAt(s, j)
    ensures DoubleIndex(s, 0) == n
  {
  }

  /** The printed text has at most one double colon, and exactly one when some group is zero. */
  lemma AtMostOneDouble(gs: seq<Group>, k: nat)
    ensures DoubleAt(Compressed(gs), k) <==> ZeroStart(gs) < |gs| && k == |Join(gs[..ZeroStart(gs)])|
  {
    var z := ZeroStart(gs);
    if z == |gs| {
      JoinColons(gs);
      if k < |Join(gs)| { assert !DoubleAt(Join(gs), k); }
    } else {
      var pre, post := gs[..z], gs[ZeroEnd(gs, z)..];
      JoinColons(pre);
      JoinColons(post);
      OneDouble(Join(pre), Join(post), k);
    }
  }

  lemma ExpandPlain(gs: seq<Group>)
    requires |gs| == 8
    ensures Expand(Join(gs)) == Some(gs)
  {
    hide Join, ReadGroups, DoubleAt;
    JoinColons(gs);
    DoubleIndexIs(Join(gs), |Join(gs)|);
    JoinBack(gs);
  }

  lemma ExpandShort(l: seq<Group>, r: seq<Group>)
    requires |l| + |r| <= 7
    ensures Expand(Join(l) + "::" + Join(r)) == Some(l + Zeros(8 - |l| - |r|) + r)
  {
    hide Join, ReadGroups, Zeros;
    var a, b := Join(l), Join(r);
    var s := a + "::" + b;
    JoinColons(l);
    JoinColons(r);
    forall k: nat | k <= |a| ensures DoubleAt(s, k) <==> k == |a| { OneDouble(a, b, k); }
    DoubleIndexIs(s, |a|);
    DoubleIndexIs(b, |b|);
    assert s[..|a|] == a && s[|a| + 2..] == b;
    JoinBack(l);
    JoinBack(r);
  }

  /** Expanding the printed text gives back exactly the eight groups. */
  lemma ExpandCompressed(gs: seq<Group>)
    requires |gs| == 8
    ensures Expand(Compressed(gs)) == Some(gs)
  {
    hide Join, Expand;
    var z := ZeroStart(gs);
    if z == |gs| {
      ExpandPlain(gs);
    } else {
      var e := ZeroEnd(gs, z);
      ExpandShort(gs[..z], gs[e..]);
      assert gs == gs[..z] + Zeros(e - z) + gs[e..];
    }
  }

  // ---------------------------------------------------------------- address and port

  lemma {:induction false} JoinNoBracket(gs: seq<Group>)
    ensures forall k :: 0 <= k < |Join(gs)| ==> Join(gs)[k] != ']'
  {
    if |gs| > 1 { JoinNoBracket(gs[1..]); }
  }

  lemma NoBracket(gs: seq<Group>)
    ensures forall k :: 0 <= k < |Compressed(gs)| ==> Compressed(gs)[k] != ']'
  {
    hide Join;
    var z := ZeroStart(gs);
    if z == |gs| {
      JoinNoBracket(gs);
    } else {
      JoinNoBracket(gs[..z]);
      JoinNoBracket(gs[ZeroEnd(gs, z)..]);
    }
  }

  /** An address in brackets, a colon and a port: the eight groups and the port number. */
  function ReadAddress(s: string): Option<(seq<Group>, Group)> {
    var k := IndexOf(s, ']');
    if 0 < k && k + 2 < |s| && s[0] == '[' && s[k + 1] == ':' then
      var gs, port := Expand(s[1..k]), DecimalValue(s[k + 2..]);
      if gs.Some? && port.Some? && port.value < 65536 then Some((gs.value, port.value)) else None
    else None
  }

  lemma BracketAfter(a: string, b: string)
    requires forall k :: 0 <= k < |a| ==> a[k] != ']'
    ensures IndexOf("[" + a + "]:" + b, ']') == 1 + |a|
  {
    var s := "[" + a + "]:" + b;
    assert s[1 + |a|] == ']' && s[0] == '[';
    assert forall k :: 0 <= k < |a| ==> s[1 + k] == a[k];
    assert forall k :: 1 <= k < 1 + |a| ==> s[k] == a[k - 1];
  }

  /** The whole text determines the eight groups and the port. */
  lemma ReadAddressBack(gs: seq<Group>, port: Group)
    requires |gs| == 8
    ensures ReadAddress("[" + Compressed(gs) + "]:" + Decimal(port)) == Some((gs, port))
  {
    hide Compressed, Expand, IndexOf, Decimal, DecimalValue;
    var a, b := Compressed(gs), Decimal(port);
    var s := "[" + a + "]:" + b;
    NoBracket(gs);
    BracketAfter(a, b);
    assert s[1..1 + |a|] == a && s[|a| + 3..] == b && s[|a| + 2] == ':';
    ExpandCompressed(gs);
    DecimalBack(port);
  }

  lemma GroupsAre(raw: seq<Byte>)
    requires |raw| == 16
    ensures forall i :: 0 <= i < 8 ==> Groups(raw)[i] == 256 * (raw[2 * i] as int) + raw[2 * i + 1] as int
  {
  }

  /** The whole of `insert`: brackets, address, colon, port, from the bytes of the socket address in
      network order. Reading the text gives back the eight groups and the port, on any host. */
  method Insert(host: Endian, raw: seq<Byte>, port: seq<Byte>) returns (os: string)
    requires |raw| == 16 && |port| == 2
    ensures os == "[" + Compressed(Groups(raw)) + "]:" + Decimal(NetworkWord(port[0], port[1]))
    ensures ReadAddress(os) == Some((Groups(raw), NetworkWord(port[0], port[1])))
    ensures ReadAddress(os).Some?
    ensures var (gs, p) := ReadAddress(os).value;
            && |gs| == 8 && (forall i :: 0 <= i < 8 ==> gs[i] == 256 * (raw[2 * i] as int) + raw[2 * i + 1] as int)
            && p == 256 * (port[0] as int) + port[1] as int
  {
    GroupsAre(raw);
    hide Compressed, ReadAddress, Groups, Decimal;
    var groups := InsertGroups(host, raw);
    var word := HostWord(host, port[0], port[1]);
    WordIsGroup(host, port[0], port[1]);
    os := "[" + groups + "]:" + Decimal(SwapOnLittle(host, word));
    ReadAddressBack(Groups(raw), NetworkWord(port[0], port[1]));
  }
}
