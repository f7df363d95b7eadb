/** The IPv6 text parser of src/lib/ssrfGuard.ts: zone, dotted tail, "::" elision, hex groups. */
module Ipv6Text {
  import opened Wrappers
  import opened Bits
  import opened Ipv4Guard

  // ----- hex groups

  predicate IsHex(c: char) {
    '0' <= c <= '9' || 'a' <= c <= 'f' || 'A' <= c <= 'F'
  }

  predicate AllHex(s: string) {
    forall i :: 0 <= i < |s| ==> IsHex(s[i])
  }

  /** One to four hex digits. */
  predicate IsGroup(s: string) {
    1 <= |s| <= 4 && AllHex(s)
  }

  function HexValue(c: char): (r: nat)
    requires IsHex(c)
    ensures r < 16
  {
    if c <= '9' then c as int - '0' as int
    else if c <= 'F' then c as int - 'A' as int + 10
    else c as int - 'a' as int + 10
  }

  function GroupValue(s: string): nat
    requires AllHex(s)
  {
    if s == "" then 0 else GroupValue(s[..|s| - 1]) * 16 + HexValue(s[|s| - 1])
  }

  lemma {:induction false} GroupBelow(s: string)
    requires AllHex(s)
    ensures GroupValue(s) < Pow2(4 * |s|)
  {
    if s != "" {
      GroupBelow(s[..|s| - 1]);
      Pow2Adds(4 * (|s| - 1), 4);
      assert Pow2(4) == 16;
    }
  }

  lemma GroupIsWord(s: string)
    requires IsGroup(s)
    ensures GroupValue(s) < 65536
  {
    GroupBelow(s);
    Pow2At32();
    assert Pow2(4) == 16 && Pow2(12) == 4096;
  }

  function HexChar(d: nat): char
    requires d < 16
  {
    if d < 10 then (d + '0' as int) as char else (d - 10 + 'a' as int) as char
  }

  /** Number.toString(16). */
  function Hex(n: nat): (s: string)
    ensures |s| > 0 && AllHex(s)
  {
    if n < 16 then [HexChar(n)] else Hex(n / 16) + [HexChar(n % 16)]
  }

  lemma {:induction false} HexReads(n: nat)
    ensures GroupValue(Hex(n)) == n
  {
    if n >= 16 {
      HexReads(n / 16);
      assert Hex(n)[..|Hex(n)| - 1] == Hex(n / 16);
    } else {
      assert Hex(n)[..0] == "";
    }
  }

  /** The print of a 16-bit number is a group that reads back as it. */
  lemma HexIsGroup(n: nat)
    requires n < 65536
    ensures IsGroup(Hex(n)) && GroupValue(Hex(n)) == n
  {
    HexReads(n);
    if n >= 4096 {
      assert |Hex(n / 16 / 16 / 16)| == 1;
      assert |Hex(n / 16 / 16)| == 2;
    } else if n >= 256 {
      assert |Hex(n / 16 / 16)| == 1;
    }
  }

  ghost predicate AllGroups(gs: seq<string>) {
    forall i :: 0 <= i < |gs| ==> IsGroup(gs[i])
  }

  function HighByte(n: nat): Byte
    requires n < 65536
  {
    n / 256
  }

  function LowByte(n: nat): Byte {
    n % 256
  }

  /** Two bytes a group, high byte first. */
  ghost function Bytes(gs: seq<string>): (r: seq<Byte>)
    requires AllGroups(gs)
    ensures |r| == 2 * |gs|
  {
    if gs == [] then []
    else
      GroupIsWord(gs[|gs| - 1]);
      Bytes(gs[..|gs| - 1]) + [HighByte(GroupValue(gs[|gs| - 1])), LowByte(GroupValue(gs[|gs| - 1]))]
  }

  function Zeros(n: nat): (r: seq<Byte>)
    ensures |r| == n && forall i :: 0 <= i < n ==> r[i] == 0
  {
    if n == 0 then [] else Zeros(n - 1) + [0]
  }

  // ----- joining and splitting

  function Joined(gs: seq<string>): string {
    if gs == [] then "" else if |gs| == 1 then gs[0] else gs[0] + ":" + Joined(gs[1..])
  }

  lemma {:induction false} SplitJoined(gs: seq<string>)
    requires gs != [] && forall i :: 0 <= i < |gs| ==> Free(gs[i], ':')
    ensures SplitOn(Joined(gs), ':') == gs
  {
    if |gs| == 1 {
      SplitNone(gs[0], ':');
    } else {
      SplitJoined(gs[1..]);
      SplitFirst(gs[0], Joined(gs[1..]), ':');
    }
  }

  lemma {:induction false} JoinedSplit(s: string)
    ensures Joined(SplitOn(s, ':')) == s
    ensures forall i :: 0 <= i < |SplitOn(s, ':')| ==> Free(SplitOn(s, ':')[i], ':')
  {
    if s != "" {
      var rest := SplitOn(s[1..], ':');
      JoinedSplit(s[1..]);
      assert s == [s[0]] + s[1..];
      if s[0] == ':' {
        assert ([""] + rest)[1..] == rest;
      } else {
        var whole := [[s[0]] + rest[0]] + rest[1..];
        assert whole[1..] == rest[1..];
        if |rest| > 1 {
          assert Joined(rest) == rest[0] + ":" + Joined(rest[1..]);
        }
      }
    }
  }

  /** String.split on "::": leftmost matches that do not overlap. */
  function SplitPair(s: string): (r: seq<string>)
    ensures |r| > 0
  {
    if |s| < 2 then [s]
    else if s[0] == ':' && s[1] == ':' then [""] + SplitPair(s[2..])
    else
      var rest := SplitPair(s[1..]);
      [[s[0]] + rest[0]] + rest[1..]
  }

  predicate NoPair(s: string) {
    forall i :: 0 <= i < |s| - 1 ==> !(s[i] == ':' && s[i + 1] == ':')
  }

  lemma {:induction false} PairNone(s: string)
    requires NoPair(s)
    ensures SplitPair(s) == [s]
  {
    if |s| >= 2 {
      assert !(s[0] == ':' && s[0 + 1] == ':');
      forall i | 0 <= i < |s[1..]| - 1 ensures !(s[1..][i] == ':' && s[1..][i + 1] == ':') {
        assert !(s[i + 1] == ':' && s[i + 1 + 1] == ':');
      }
      PairNone(s[1..]);
      assert s == [s[0]] + s[1..];
    }
  }

  lemma {:induction false} PairFirst(a: string, b: string)
    requires NoPair(a) && (a == "" || a[|a| - 1] != ':')
    ensures SplitPair(a + "::" + b) == [a] + SplitPair(b)
  {
    var s := a + "::" + b;
    if a == "" {
      assert s[2..] == b;
    } else {
      forall i | 0 <= i < |a[1..]| - 1 ensures !(a[1..][i] == ':' && a[1..][i + 1] == ':') {
        assert !(a[i + 1] == ':' && a[i + 1 + 1] == ':');
      }
      PairFirst(a[1..], b);
      assert s[1..] == a[1..] + "::" + b;
      if |a| > 1 {
        assert !(a[0] == ':' && a[0 + 1] == ':');
      }
      assert a == [a[0]] + a[1..];
    }
  }

  /** The pieces with the separators put back are the text. */
  lemma {:induction false} PairRejoins(s: string)
    ensures |SplitPair(s)| == 1 ==> SplitPair(s)[0] == s
    ensures |SplitPair(s)| == 2 ==> s == SplitPair(s)[0] + "::" + SplitPair(s)[1]
  {
    if |s| >= 2 {
      if s[0] == ':' && s[1] == ':' {
        PairRejoins(s[2..]);
        assert s == "::" + s[2..];
      } else {
        PairRejoins(s[1..]);
        Prepend(s, SplitPair(s[1..]));
      }
    }
  }

  lemma Prepend(s: string, pieces: seq<string>)
    requires s != "" && |pieces| > 0
    ensures pieces[0] == s[1..] ==> [s[0]] + pieces[0] == s
    ensures |pieces| == 2 && s[1..] == pieces[0] + "::" + pieces[1] ==> s == [s[0]] + pieces[0] + "::" + pieces[1]
  {
    assert s == [s[0]] + s[1..];
    if |pieces| == 2 && s[1..] == pieces[0] + "::" + pieces[1] {
      assert [s[0]] + (pieces[0] + "::" + pieces[1]) == [s[0]] + pieces[0] + "::" + pieces[1];
    }
  }

  lemma {:induction false} GroupsJoin(gs: seq<string>)
    requires AllGroups(gs)
    ensures NoPair(Joined(gs))
    ensures Joined(gs) == "" <==> gs == []
    ensures gs != [] ==> Joined(gs)[0] != ':' && Joined(gs)[|Joined(gs)| - 1] != ':'
    ensures forall i :: 0 <= i < |Joined(gs)| ==> IsHex(Joined(gs)[i]) || Joined(gs)[i] == ':'
    ensures forall i :: 0 <= i < |gs| ==> Free(gs[i], ':')
  {
    if |gs| > 1 {
      GroupsJoin(gs[1..]);
      var t := Joined(gs[1..]);
      assert IsGroup(gs[0]);
      var s := gs[0] + ":" + t;
      forall i | 0 <= i < |s| - 1 ensures !(s[i] == ':' && s[i + 1] == ':') {
        if i > |gs[0]| {
          assert s[i] == t[i - |gs[0]| - 1] && s[i + 1] == t[i - |gs[0]| - 1 + 1];
        }
      }
      forall i | 0 <= i < |gs| ensures Free(gs[i], ':') {
        assert IsGroup(gs[i]);
      }
    } else if |gs| == 1 {
      assert IsGroup(gs[0]);
    }
  }

  // ----- ipv6ToBytes

  /** A half of the text as groups: empty text is no group. */
  function Groups(half: string): seq<string> {
    if half == "" then [] else SplitOn(half, ':')
  }

  /** Text without zone or dotted tail. */
  ghost function ReadHex(text: string): Option<seq<Byte>> {
    var halves := SplitPair(text);
    if |halves| > 2 then None
    else
      var head := Groups(halves[0]);
      var tail := if |halves| == 2 then Groups(halves[1]) else [];
      if |halves| == 1 && |head| != 8 then None
      else if |head| + |tail| > 8 then None
      else if AllGroups(head) && AllGroups(tail)
      then Some(Bytes(head) + Zeros(16 - 2 * |head| - 2 * |tail|) + Bytes(tail))
      else None
  }

  /** String.lastIndexOf(':'). */
  function LastColon(s: string): (r: int)
    ensures -1 <= r < |s|
    ensures r >= 0 ==> s[r] == ':'
    ensures forall i :: r < i < |s| ==> s[i] != ':'
  {
    if s == "" then -1
    else if s[|s| - 1] == ':' then |s| - 1
    else LastColon(s[..|s| - 1])
  }

  /** The two hex groups that stand for a 32-bit value. */
  function WordGroups(v: nat): string {
    Hex(v / 65536 % 65536) + ":" + Hex(v % 65536)
  }

  /** The text with a dotted-quad tail turned into hex groups. */
  function Undotted(text: string): Option<string> {
    var cut := LastColon(text) + 1;
    if '.' !in text[cut..] then Some(text)
    else
      match ParseV4(text[cut..])
      case None => None
      case Some(v) => Some(text[..cut] + WordGroups(v))
  }

  function Unzoned(ip: string): string {
    SplitOn(ip, '%')[0]
  }

  ghost function ParseV6(ip: string): Option<seq<Byte>> {
    match Undotted(Unzoned(ip))
    case None => None
    case Some(text) => ReadHex(text)
  }

  // ----- the texts it reads

  ghost predicate FullForm(text: string, b: seq<Byte>, gs: seq<string>) {
    AllGroups(gs) && |gs| == 8 && text == Joined(gs) && b == Bytes(gs)
  }

  ghost predicate ElidedForm(text: string, b: seq<Byte>, heads: seq<string>, tails: seq<string>) {
    && AllGroups(heads) && AllGroups(tails) && |heads| + |tails| <= 8
    && text == Joined(heads) + "::" + Joined(tails)
    && b == Bytes(heads) + Zeros(16 - 2 * |heads| - 2 * |tails|) + Bytes(tails)
  }

  /** Sections 2.2 (1) and (2) of RFC 4291: eight groups, or groups around one elided run of zeros. */
  ghost predicate Spells(text: string, b: seq<Byte>) {
    || (exists gs :: FullForm(text, b, gs))
    || (exists heads, tails :: ElidedForm(text, b, heads, tails))
  }

  lemma GroupsOfJoined(gs: seq<string>)
    requires AllGroups(gs)
    ensures Groups(Joined(gs)) == gs
  {
    GroupsJoin(gs);
    if gs != [] {
      SplitJoined(gs);
    }
  }

  lemma FullReads(text: string, b: seq<Byte>, gs: seq<string>)
    requires FullForm(text, b, gs)
    ensures ReadHex(text) == Some(b)
  {
    GroupsJoin(gs);
    PairNone(text);
    GroupsOfJoined(gs);
    assert Bytes(gs) + Zeros(0) + Bytes([]) == Bytes(gs);
  }

  lemma ElidedReads(text: string, b: seq<Byte>, heads: seq<string>, tails: seq<string>)
    requires ElidedForm(text, b, heads, tails)
    ensures ReadHex(text) == Some(b)
  {
    GroupsJoin(heads);
    GroupsJoin(tails);
    PairFirst(Joined(heads), Joined(tails));
    PairNone(Joined(tails));
    GroupsOfJoined(heads);
    GroupsOfJoined(tails);
    HalvesRead(text, b, heads, tails);
  }

  lemma HalvesRead(text: string, b: seq<Byte>, heads: seq<string>, tails: seq<string>)
    requires ElidedForm(text, b, heads, tails)
    requires SplitPair(text) == [Joined(heads), Joined(tails)]
    requires Groups(Joined(heads)) == heads && Groups(Joined(tails)) == tails
    ensures ReadHex(text) == Some(b)
  {
  }

  lemma JoinedGroups(half: string)
    ensures Joined(Groups(half)) == half
  {
    JoinedSplit(half);
  }

  /** The reader accepts exactly those texts, and gives the bytes they spell. */
  lemma ReadsExactly(text: string, b: seq<Byte>)
    ensures ReadHex(text) == Some(b) <==> Spells(text, b)
  {
    if ReadHex(text) == Some(b) {
      PairRejoins(text);
      var halves := SplitPair(text);
      var head := Groups(halves[0]);
      JoinedGroups(halves[0]);
      if |halves| == 1 {
        assert Bytes(head) + Zeros(0) + Bytes([]) == Bytes(head);
        assert FullForm(text, b, head);
      } else {
        JoinedGroups(halves[1]);
        assert ElidedForm(text, b, head, Groups(halves[1]));
      }
    }
    if gs :| FullForm(text, b, gs) {
      FullReads(text, b, gs);
    }
    if heads, tails :| ElidedForm(text, b, heads, tails) {
      ElidedReads(text, b, heads, tails);
    }
  }

  // ----- zone and dotted tail

  /** What follows the first '%' never matters. */
  lemma ZoneIgnored(p: string, zone: string)
    requires Free(p, '%')
    ensures ParseV6(p + "%" + zone) == ParseV6(p)
  {
    SplitFirst(p, zone, '%');
    SplitNone(p, '%');
  }

  lemma {:induction false} LastColonAt(p: string, t: string)
    requires p == "" || p[|p| - 1] == ':'
    requires Free(t, ':')
    ensures LastColon(p + t) == |p| - 1
    decreases |t|
  {
    if t == "" {
      assert p + t == p;
    } else {
      assert (p + t)[..|p + t| - 1] == p + t[..|t| - 1];
      LastColonAt(p, t[..|t| - 1]);
    }
  }

  /** A dotted quad has a dot, no colon and no percent sign. */
  lemma QuadText(t: string, v: nat)
    requires ParseV4(t) == Some(v)
    ensures Free(t, ':') && Free(t, '%') && '.' in t
  {
    ReadsQuadsExactly(t, v);
    var a, b, c, d :| QuadForm(t, v, a, b, c, d);
    PartFree(a);
    PartFree(b);
    PartFree(c);
    PartFree(d);
    assert t[|a|] == '.';
  }

  lemma WordSplits(a: Byte, b: Byte, c: Byte, d: Byte)
    ensures Quad(a, b, c, d) / 65536 % 65536 == a * 256 + b
    ensures Quad(a, b, c, d) % 65536 == c * 256 + d
  {
    assert Quad(a, b, c, d) == 65536 * (a * 256 + b) + (c * 256 + d);
  }

  lemma TailOf(p: string, t: string)
    requires p == "" || p[|p| - 1] == ':'
    requires Free(t, ':')
    ensures LastColon(p + t) + 1 == |p|
    ensures (p + t)[|p|..] == t && (p + t)[..|p|] == p
  {
    LastColonAt(p, t);
  }

  lemma UndottedOf(p: string, t: string, v: nat)
    requires p == "" || p[|p| - 1] == ':'
    requires ParseV4(t) == Some(v)
    ensures Undotted(p + t) == Some(p + WordGroups(v))
  {
    QuadText(t, v);
    TailOf(p, t);
  }

  lemma UndottedPlain(p: string, t: string)
    requires p == "" || p[|p| - 1] == ':'
    requires Free(t, ':') && Free(t, '.')
    ensures Undotted(p + t) == Some(p + t)
  {
    TailOf(p, t);
  }

  lemma HexIsPlain(n: nat)
    ensures Free(Hex(n), ':') && Free(Hex(n), '%') && Free(Hex(n), '.')
  {
    forall i | 0 <= i < |Hex(n)| ensures Hex(n)[i] != ':' && Hex(n)[i] != '%' && Hex(n)[i] != '.' {
      assert IsHex(Hex(n)[i]);
    }
  }

  lemma FreeConcat(a: string, b: string, c: char)
    requires Free(a, c) && Free(b, c)
    ensures Free(a + b, c)
  {
  }

  /** Section 2.2 (3) of RFC 4291: a dotted-quad tail stands for the two groups of its number. */
  lemma DottedTailIsTwoGroups(p: string, t: string, v: nat)
    requires Free(p, '%') && (p == "" || p[|p| - 1] == ':') && ParseV4(t) == Some(v)
    ensures ParseV6(p + t) == ParseV6(p + WordGroups(v))
  {
    HexIsPlain(v / 65536 % 65536);
    HexIsPlain(v % 65536);
    QuadText(t, v);
    FreeConcat(p, t, '%');
    UndottedOf(p, t, v);
    ParseThrough(p + t, p + WordGroups(v));
    Replaced(p, Hex(v / 65536 % 65536), Hex(v % 65536));
  }

  lemma DottedWords(a: Byte, b: Byte, c: Byte, d: Byte)
    ensures ParseV4(Dotted(a, b, c, d)) == Some(Quad(a, b, c, d))
    ensures WordGroups(Quad(a, b, c, d)) == Hex(a * 256 + b) + ":" + Hex(c * 256 + d)
  {
    DottedReads(a, b, c, d);
    WordSplits(a, b, c, d);
  }

  lemma ParseThrough(ip: string, text: string)
    requires Free(ip, '%') && Undotted(ip) == Some(text)
    ensures ParseV6(ip) == ReadHex(text)
  {
    SplitNone(ip, '%');
  }

  lemma Replaced(p: string, x: string, y: string)
    requires Free(p, '%') && Free(x, '%') && Free(y, '%') && Free(y, ':') && Free(y, '.')
    ensures ParseV6(p + (x + ":" + y)) == ReadHex(p + (x + ":" + y))
  {
    var q := p + x + ":";
    assert p + (x + ":" + y) == q + y;
    FreeConcat(p, x, '%');
    FreeConcat(p + x, ":", '%');
    FreeConcat(q, y, '%');
    UndottedPlain(q, y);
    ParseThrough(q + y, q + y);
  }

  // ----- text forms, through the whole parser

  lemma PlainText(text: string)
    requires Free(text, '%') && Free(text, '.')
    ensures ParseV6(text) == ReadHex(text)
  {
    var cut := LastColon(text) + 1;
    forall i | 0 <= i < |text[cut..]| ensures text[cut..][i] != '.' {
      assert text[cut..][i] == text[cut + i];
    }
    ParseThrough(text, text);
  }

  lemma JoinedIsPlain(gs: seq<string>)
    requires AllGroups(gs)
    ensures Free(Joined(gs), '%') && Free(Joined(gs), '.')
  {
    GroupsJoin(gs);
  }

  lemma ParsesFull(gs: seq<string>)
    requires AllGroups(gs) && |gs| == 8
    ensures ParseV6(Joined(gs)) == Some(Bytes(gs))
  {
    JoinedIsPlain(gs);
    PlainText(Joined(gs));
    FullReads(Joined(gs), Bytes(gs), gs);
  }

  lemma ParsesElided(heads: seq<string>, tails: seq<string>)
    requires AllGroups(heads) && AllGroups(tails) && |heads| + |tails| <= 8
    ensures ParseV6(Joined(heads) + "::" + Joined(tails)) ==
            Some(Bytes(heads) + Zeros(16 - 2 * |heads| - 2 * |tails|) + Bytes(tails))
  {
    var text := Joined(heads) + "::" + Joined(tails);
    JoinedIsPlain(heads);
    JoinedIsPlain(tails);
    FreeConcat(Joined(heads), "::", '%');
    FreeConcat(Joined(heads), "::", '.');
    FreeConcat(Joined(heads) + "::", Joined(tails), '%');
    FreeConcat(Joined(heads) + "::", Joined(tails), '.');
    PlainText(text);
    ElidedReads(text, Bytes(heads) + Zeros(16 - 2 * |heads| - 2 * |tails|) + Bytes(tails), heads, tails);
  }

  lemma {:induction false} JoinedAppend(xs: seq<string>, ys: seq<string>)
    requires xs != [] && ys != []
    ensures Joined(xs + ys) == Joined(xs) + ":" + Joined(ys)
  {
    if |xs| == 1 {
      assert (xs + ys)[1..] == ys;
    } else {
      assert (xs + ys)[1..] == xs[1..] + ys;
      JoinedAppend(xs[1..], ys);
    }
  }

  lemma OneMore(gs: seq<string>, x: string)
    requires AllGroups(gs) && IsGroup(x)
    ensures AllGroups(gs + [x]) && GroupValue(x) < 65536
    ensures Bytes(gs + [x]) == Bytes(gs) + [HighByte(GroupValue(x)), LowByte(GroupValue(x))]
  {
    GroupIsWord(x);
    assert (gs + [x])[..|gs|] == gs;
  }

  /** The last two groups and the four bytes they spell. */
  lemma TailGroups(gs: seq<string>, a: Byte, b: Byte, c: Byte, d: Byte)
    requires AllGroups(gs)
    ensures AllGroups(gs + [Hex(a * 256 + b), Hex(c * 256 + d)])
    ensures Bytes(gs + [Hex(a * 256 + b), Hex(c * 256 + d)]) == Bytes(gs) + [a, b, c, d]
  {
    PairGroup(a, b);
    PairGroup(c, d);
    TwoMore(gs, Hex(a * 256 + b), Hex(c * 256 + d), a, b, c, d);
  }

  lemma PairGroup(a: Byte, b: Byte)
    ensures IsGroup(Hex(a * 256 + b)) && GroupValue(Hex(a * 256 + b)) < 65536
    ensures HighByte(GroupValue(Hex(a * 256 + b))) == a && LowByte(GroupValue(Hex(a * 256 + b))) == b
  {
    HexIsGroup(a * 256 + b);
  }

  lemma TwoMore(gs: seq<string>, x: string, y: string, a: Byte, b: Byte, c: Byte, d: Byte)
    requires AllGroups(gs) && IsGroup(x) && IsGroup(y) && GroupValue(x) < 65536 && GroupValue(y) < 65536
    requires HighByte(GroupValue(x)) == a && LowByte(GroupValue(x)) == b
    requires HighByte(GroupValue(y)) == c && LowByte(GroupValue(y)) == d
    ensures AllGroups(gs + [x, y]) && Bytes(gs + [x, y]) == Bytes(gs) + [a, b, c, d]
  {
    OneMore(gs, x);
    OneMore(gs + [x], y);
    assert gs + [x] + [y] == gs + [x, y];
    assert Bytes(gs) + [a, b] + [c, d] == Bytes(gs) + [a, b, c, d];
  }

  /** The groups before a dotted quad, with the colon that separates them from it. */
  function Lead(gs: seq<string>): string {
    if gs == [] then "" else Joined(gs) + ":"
  }

  lemma LeadJoins(gs: seq<string>, x: string, y: string)
    ensures Lead(gs) + (x + ":" + y) == Joined(gs + [x, y])
  {
    assert Joined([x, y]) == x + ":" + y;
    if gs == [] {
      assert gs + [x, y] == [x, y];
    } else {
      JoinedAppend(gs, [x, y]);
    }
  }

  /** Six groups and a dotted quad. */
  lemma ParsesFullDotted(gs: seq<string>, a: Byte, b: Byte, c: Byte, d: Byte)
    requires AllGroups(gs) && |gs| == 6
    ensures ParseV6(Joined(gs) + ":" + Dotted(a, b, c, d)) == Some(Bytes(gs) + [a, b, c, d])
  {
    var x, y := Hex(a * 256 + b), Hex(c * 256 + d);
    JoinedIsPlain(gs);
    DottedWords(a, b, c, d);
    DottedTailIsTwoGroups(Joined(gs) + ":", Dotted(a, b, c, d), Quad(a, b, c, d));
    TailGroups(gs, a, b, c, d);
    LeadJoins(gs, x, y);
    ParsesFull(gs + [x, y]);
  }

  /** Groups, "::", groups and a dotted quad; the groups after the elision may be none. */
  lemma ParsesElidedDotted(heads: seq<string>, tails: seq<string>, a: Byte, b: Byte, c: Byte, d: Byte)
    requires AllGroups(heads) && AllGroups(tails) && |heads| + |tails| <= 6
    ensures ParseV6(Joined(heads) + "::" + Lead(tails) + Dotted(a, b, c, d)) ==
            Some(Bytes(heads) + Zeros(12 - 2 * |heads| - 2 * |tails|) + Bytes(tails) + [a, b, c, d])
  {
    var x, y := Hex(a * 256 + b), Hex(c * 256 + d);
    LeadIsPlain(heads, tails);
    DottedWords(a, b, c, d);
    DottedTailIsTwoGroups(Joined(heads) + "::" + Lead(tails), Dotted(a, b, c, d), Quad(a, b, c, d));
    TailGroups(tails, a, b, c, d);
    LeadJoins(tails, x, y);
    Shift(Joined(heads) + "::", Lead(tails), x + ":" + y);
    ParsesElided(heads, tails + [x, y]);
    Regroup(Bytes(heads), Zeros(12 - 2 * |heads| - 2 * |tails|), Bytes(tails), [a, b, c, d]);
  }

  lemma LeadIsPlain(heads: seq<string>, tails: seq<string>)
    requires AllGroups(heads) && AllGroups(tails)
    ensures Free(Joined(heads) + "::" + Lead(tails), '%')
    ensures (Joined(heads) + "::" + Lead(tails))[|Joined(heads) + "::" + Lead(tails)| - 1] == ':'
  {
    JoinedIsPlain(heads);
    JoinedIsPlain(tails);
    FreeConcat(Joined(heads), "::", '%');
    FreeConcat(Joined(heads) + "::", Lead(tails), '%');
  }

  lemma Shift(a: string, b: string, c: string)
    ensures a + b + c == a + (b + c)
  {
  }

  lemma Regroup(a: seq<Byte>, b: seq<Byte>, c: seq<Byte>, d: seq<Byte>)
    ensures a + b + (c + d) == a + b + c + d
  {
  }

  // ----- exactly the texts it accepts

  /** Groups up to a last colon, and a dotted quad that stands for the two groups after it. */
  ghost predicate QuadTailed(text: string, b: seq<Byte>, p: string, t: string, v: nat) {
    && text == p + t && (p == "" || p[|p| - 1] == ':')
    && ParseV4(t) == Some(v) && Spells(p + WordGroups(v), b)
  }

  /** Section 2.2 of RFC 4291. */
  ghost predicate Means(text: string, b: seq<Byte>) {
    Spells(text, b) || exists p, t, v :: QuadTailed(text, b, p, t, v)
  }

  ghost predicate Zoned(ip: string, b: seq<Byte>, text: string, zone: string) {
    ip == text + "%" + zone && Means(text, b)
  }

  /** Such a text, with or without a zone. */
  ghost predicate Denotes(ip: string, b: seq<Byte>) {
    Means(ip, b) || exists text, zone :: Zoned(ip, b, text, zone)
  }

  lemma SpelledIsPlain(text: string, b: seq<Byte>)
    requires Spells(text, b)
    ensures Free(text, '%') && Free(text, '.')
  {
    if gs :| FullForm(text, b, gs) {
      JoinedIsPlain(gs);
    } else {
      var heads, tails :| ElidedForm(text, b, heads, tails);
      JoinedIsPlain(heads);
      JoinedIsPlain(tails);
    }
  }

  lemma MeantReads(text: string, b: seq<Byte>)
    requires Means(text, b)
    ensures Free(text, '%') && ParseV6(text) == Some(b)
  {
    if Spells(text, b) {
      SpelledIsPlain(text, b);
      PlainText(text);
      ReadsExactly(text, b);
    } else {
      var p, t, v :| QuadTailed(text, b, p, t, v);
      SpelledIsPlain(p + WordGroups(v), b);
      assert (p + WordGroups(v))[..|p|] == p;
      QuadText(t, v);
      FreeConcat(p, t, '%');
      UndottedOf(p, t, v);
      ParseThrough(text, p + WordGroups(v));
      ReadsExactly(p + WordGroups(v), b);
    }
  }

  lemma QuadIsMeant(p: string, t: string, v: nat, b: seq<Byte>)
    requires p == "" || p[|p| - 1] == ':'
    requires ParseV4(t) == Some(v) && ReadHex(p + WordGroups(v)) == Some(b)
    ensures Means(p + t, b)
  {
    ReadsExactly(p + WordGroups(v), b);
    assert QuadTailed(p + t, b, p, t, v);
  }

  /** Undotting changes nothing, or turns a quad after the last colon into its two groups. */
  lemma UndottedIs(text: string, r: string) returns (p: string, t: string)
    requires Undotted(text) == Some(r)
    ensures text == p + t && (p == "" || p[|p| - 1] == ':')
    ensures r == text || (ParseV4(t).Some? && r == p + WordGroups(ParseV4(t).value))
  {
    var cut := LastColon(text) + 1;
    p, t := text[..cut], text[cut..];
  }

  lemma ReadIsMeant(text: string, r: string, b: seq<Byte>)
    requires Undotted(text) == Some(r) && ReadHex(r) == Some(b)
    ensures Means(text, b)
  {
    var p, t := UndottedIs(text, r);
    if r == text {
      ReadsExactly(text, b);
    } else {
      QuadIsMeant(p, t, ParseV4(t).value, b);
    }
  }

  /** The parser accepts exactly those texts, and gives the bytes they denote. */
  lemma ParsesExactly(ip: string, b: seq<Byte>)
    ensures ParseV6(ip) == Some(b) <==> Denotes(ip, b)
  {
    if ParseV6(ip) == Some(b) {
      var zone := SplitHead(ip, '%');
      var text := Unzoned(ip);
      ReadIsMeant(text, Undotted(text).value, b);
      if text != ip {
        assert Zoned(ip, b, text, zone);
      }
    }
    if Means(ip, b) {
      MeantReads(ip, b);
    }
    if text, zone :| Zoned(ip, b, text, zone) {
      MeantReads(text, b);
      ZoneIgnored(text, zone);
    }
  }

  // ----- the routine, on its array

  /** `(n >> 8) & 0xff` and `n & 0xff` are the two bytes of a group. */
  lemma ByteOps(n: nat)
    requires n < 65536
    ensures And(Shr(n, 8), 0xff) == HighByte(n)
    ensures And(n, 0xff) == LowByte(n)
  {
    Pow2At32();
    AndLowMask(n / 256, 8);
    AndLowMask(n, 8);
    assert n / 256 % 256 == n / 256;
  }

  lemma WordOps(v: nat)
    ensures And(Shr(v, 16), 0xffff) == v / 65536 % 65536
    ensures And(v, 0xffff) == v % 65536
  {
    Pow2At32();
    AndLowMask(v / 65536, 16);
    AndLowMask(v, 16);
  }

  method WriteGroup(bytes: array<Byte>, group: string, at: nat)
    requires at + 2 <= bytes.Length && IsGroup(group)
    modifies bytes
    ensures GroupValue(group) < 65536
    ensures bytes[at] == HighByte(GroupValue(group)) && bytes[at + 1] == LowByte(GroupValue(group))
    ensures forall k :: 0 <= k < bytes.Length && k != at && k != at + 1 ==> bytes[k] == old(bytes[k])
  {
    GroupIsWord(group);
    var n := GroupValue(group);
    ByteOps(n);
    bytes[at] := And(Shr(n, 8), 0xff);
    bytes[at + 1] := And(n, 0xff);
  }

  lemma SliceGrows(bs: seq<Byte>, a: seq<Byte>, lo: nat, mid: nat)
    requires lo <= mid && mid + 2 <= |bs| && |a| == mid - lo
    requires forall k :: lo <= k < mid ==> bs[k] == a[k - lo]
    ensures bs[lo..mid + 2] == a + [bs[mid], bs[mid + 1]]
  {
  }

  /** Writes the groups from the offset on; stops at the first that is not one. */
  method Write(bytes: array<Byte>, groups: seq<string>, offset: nat) returns (ok: bool)
    requires offset + 2 * |groups| <= bytes.Length
    modifies bytes
    ensures ok <==> AllGroups(groups)
    ensures ok ==> bytes[offset..offset + 2 * |groups|] == Bytes(groups)
    ensures forall k :: 0 <= k < bytes.Length && !(offset <= k < offset + 2 * |groups|) ==> bytes[k] == old(bytes[k])
  {
    ghost var seen: seq<string> := [];
    for i := 0 to |groups|
      invariant seen == groups[..i] && AllGroups(seen)
      invariant bytes[offset..offset + 2 * i] == Bytes(seen)
      invariant forall k :: 0 <= k < bytes.Length && !(offset <= k < offset + 2 * i) ==> bytes[k] == old(bytes[k])
    {
      if !IsGroup(groups[i]) {
        assert !AllGroups(groups);
        return false;
      }
      ghost var before := bytes[offset..offset + 2 * i];
      WriteGroup(bytes, groups[i], offset + i * 2);
      OneMore(seen, groups[i]);
      seen := seen + [groups[i]];
      SliceGrows(bytes[..], before, offset, offset + 2 * i);
    }
    assert seen == groups;
    return true;
  }

  /** Turns a dotted-quad tail into two hex groups. */
  method Undot(text: string) returns (r: Option<string>)
    ensures r == Undotted(text)
  {
    var lastColon := LastColon(text);
    var tail := text[lastColon + 1..];
    if '.' !in tail {
      return Some(text);
    }
    var v4 := Ipv4ToInt(tail);
    if v4.None? {
      return None;
    }
    WordOps(v4.value);
    var hi := Hex(And(Shr(v4.value, 16), 0xffff));
    var lo := Hex(And(v4.value, 0xffff));
    var groups := hi + ":" + lo;
    assert groups == WordGroups(v4.value);
    return Some(text[..lastColon + 1] + groups);
  }

  /** Fills the array from both ends; what lies between stays zero. */
  method WriteHalves(bytes: array<Byte>, head: seq<string>, tailGroups: seq<string>) returns (ok: bool)
    requires bytes.Length == 16 && |head| + |tailGroups| <= 8
    requires forall k :: 0 <= k < 16 ==> bytes[k] == 0
    modifies bytes
    ensures ok <==> AllGroups(head) && AllGroups(tailGroups)
    ensures ok ==> bytes[..] == Bytes(head) + Zeros(16 - 2 * |head| - 2 * |tailGroups|) + Bytes(tailGroups)
  {
    ok := Write(bytes, head, 0);
    if ok {
      ghost var half := bytes[..];
      assert half[..2 * |head|] == bytes[0..0 + 2 * |head|];
      ok := Write(bytes, tailGroups, 16 - |tailGroups| * 2);
      if ok {
        Assembled(bytes[..], Bytes(head), 16 - 2 * |head| - 2 * |tailGroups|, Bytes(tailGroups));
      }
    }
  }

  lemma Assembled(bytes: seq<Byte>, a: seq<Byte>, n: nat, b: seq<Byte>)
    requires |bytes| == |a| + n + |b|
    requires bytes[..|a|] == a && bytes[|a| + n..] == b
    requires forall k :: |a| <= k < |a| + n ==> bytes[k] == 0
    ensures bytes == a + Zeros(n) + b
  {
    assert bytes[|a|..|a| + n] == Zeros(n);
    assert bytes == bytes[..|a|] + bytes[|a|..|a| + n] + bytes[|a| + n..];
  }

  /** Splits at "::" and writes the groups of both halves. */
  method FromHex(text: string, bytes: array<Byte>) returns (ok: bool)
    requires bytes.Length == 16
    requires forall k :: 0 <= k < 16 ==> bytes[k] == 0
    modifies bytes
    ensures ok <==> ReadHex(text).Some?
    ensures ok ==> bytes[..] == ReadHex(text).value
  {
    var halves := SplitPair(text);
    if |halves| > 2 {
      return false;
    }
    var head := if halves[0] != "" then SplitOn(halves[0], ':') else [];
    var tailGroups := if |halves| == 2 && halves[1] != "" then SplitOn(halves[1], ':') else [];
    if |halves| == 1 && |head| != 8 {
      return false;
    }
    if |head| + |tailGroups| > 8 {
      return false;
    }
    ok := WriteHalves(bytes, head, tailGroups);
  }

  lemma Through(ip: string, text: string)
    requires Undotted(Unzoned(ip)) == Some(text)
    ensures ParseV6(ip) == ReadHex(text)
  {
  }

  method Ipv6ToBytes(ip: string) returns (r: Option<array<Byte>>)
    ensures r.Some? <==> ParseV6(ip).Some?
    ensures r.Some? ==> fresh(r.value) && r.value[..] == ParseV6(ip).value && Denotes(ip, r.value[..])
  {
    var bytes := new Byte[16](i => 0);
    assert forall k :: 0 <= k < 16 ==> bytes[k] == 0;
    var undotted := Undot(Unzoned(ip));
    if undotted.None? {
      return None;
    }
    Through(ip, undotted.value);
    var ok := FromHex(undotted.value, bytes);
    ParsesExactly(ip, bytes[..]);
    return if ok then Some(bytes) else None;
  }
}
