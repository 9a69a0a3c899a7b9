/**
 The address printer `nfs_ip2str` of `nfstat/nfs.h`, and a reader that undoes it. The printer replaces the
 first run of zero groups by "::", also after a group that already ended in ":", so the reader follows
 the printer, not section 2.2 of RFC 4291.
 */
module AddressText {
  import opened Wrappers
  import opened NfsRule

  const GROUPS: nat := 8

  function Digit(d: nat): char
    requires d < 16
  {
    if d < 10 then '0' + d as char else 'a' + (d - 10) as char
  }

  /** `%04x`. */
  function Hex4(v: nat): (s: string)
    requires v < 0x1_0000
    ensures |s| == 4
  {
    [Digit(v / 4096), Digit(v / 256 % 16), Digit(v / 16 % 16), Digit(v % 16)]
  }

  /** `%d` of a byte. */
  function Dec(b: nat): (s: string)
    requires b < 256
    ensures 1 <= |s| <= 3
  {
    if b < 10 then [Digit(b)]
    else if b < 100 then [Digit(b / 10), Digit(b % 10)]
    else [Digit(b / 100), Digit(b / 10 % 10), Digit(b % 10)]
  }

  /** Before the zero run, in it (since some group), and after it: `first` is -1, an index, and -2. */
  datatype Run = Before | In(start: nat) | After

  predicate IsGroups(g: seq<nat>) {
    |g| == GROUPS && forall i :: 0 <= i < GROUPS ==> g[i] < 0x1_0000
  }

  /** The text of the groups from `i` on. */
  function Print6(g: seq<nat>, i: nat, first: Run): string
    requires IsGroups(g) && i <= GROUPS
    decreases |g| - i
  {
    if i == GROUPS then ""
    else if first.Before? && g[i] == 0 then "::" + Print6(g, i + 1, In(i))
    else if first.In? && g[i] == 0 then Print6(g, i + 1, first)
    else
      Hex4(g[i]) + (if i + 1 != GROUPS then ":" else "")
      + Print6(g, i + 1, if first != Before && g[i] != 0 then After else first)
  }

  function Print4(b: seq<nat>): string
    requires |b| == 4 && forall i :: 0 <= i < 4 ==> b[i] < 256
  {
    Dec(b[0]) + ("." + (Dec(b[1]) + ("." + (Dec(b[2]) + ("." + Dec(b[3]))))))
  }

  predicate IsByteAddr(a: IpAddr) {
    forall i :: 0 <= i < 16 ==> a.addr[i] < 256
  }

  /** The i-th 16-bit group as the machine reads it from memory. */
  function Group(b: seq<nat>, i: nat, big: bool): nat
    requires |b| == 16 && i < GROUPS
  {
    if big then 256 * b[2 * i] + b[2 * i + 1] else b[2 * i] + 256 * b[2 * i + 1]
  }

  function GroupsOf(b: seq<nat>, big: bool): (g: seq<nat>)
    requires |b| == 16 && forall i :: 0 <= i < 16 ==> b[i] < 256
    ensures IsGroups(g)
  {
    seq(GROUPS, i requires 0 <= i < GROUPS => Group(b, i, big))
  }

  function BytesOf(g: seq<nat>, big: bool): (b: seq<nat>)
    requires IsGroups(g)
    ensures |b| == 16
  {
    seq(16, k requires 0 <= k < 16 => if (k % 2 == 0) == big then g[k / 2] / 256 else g[k / 2] % 256)
  }

  /** What the printer writes. */
  function Print(a: IpAddr, big: bool): string
    requires IsByteAddr(a)
  {
    if a.len == 4 then Print4(a.addr[..4])
    else if a.len == 6 then Print6(GroupsOf(a.addr, big), 0, Before)
    else "ANY"
  }

  // ----- Reading the text back

  function Value(c: char): Option<nat> {
    if '0' <= c <= '9' then Some((c - '0') as nat)
    else if 'a' <= c <= 'f' then Some((c - 'a') as nat + 10)
    else None
  }

  /** One group of four digits. */
  function ReadHex(s: string): Option<nat>
    requires |s| == 4
  {
    match (Value(s[0]), Value(s[1]), Value(s[2]), Value(s[3]))
    case (Some(a), Some(b), Some(c), Some(d)) => Some(4096 * a + 256 * b + 16 * c + d)
    case _ => None
  }

  /** Groups, each ended by ":" or by the end, up to something else. */
  function ReadGroups(s: string): (seq<nat>, string) {
    if |s| < 4 || ReadHex(s[..4]).None? || (|s| > 4 && s[4] != ':') then ([], s)
    else
      var rest := ReadGroups(s[if |s| > 4 then 5 else 4..]);
      ([ReadHex(s[..4]).value] + rest.0, rest.1)
  }

  /** `n` groups, a "::" standing for as many zero groups as are missing. */
  function Read6(s: string, n: nat): Option<seq<nat>> {
    var r := ReadGroups(s);
    if r.1 == "" then (if |r.0| == n then Some(r.0) else None)
    else if |r.1| >= 2 && r.1[..2] == "::" then
      var t := ReadGroups(r.1[2..]);
      if t.1 == "" && |r.0| + |t.0| < n then Some(r.0 + Zeroes(n - |r.0| - |t.0|) + t.0) else None
    else None
  }

  /** A decimal number at the front. */
  function ReadDec(s: string, acc: nat): (nat, string) {
    if s == "" || !('0' <= s[0] <= '9') then (acc, s)
    else ReadDec(s[1..], 10 * acc + (s[0] - '0') as nat)
  }

  /** `n` numbers with points between. */
  function Read4(s: string, n: nat): Option<seq<nat>>
    decreases n
  {
    var r := ReadDec(s, 0);
    if n <= 1 then (if r.1 == "" then Some([r.0]) else None)
    else if r.1 == "" || r.1[0] != '.' then None
    else
      var t := Read4(r.1[1..], n - 1);
      if t.None? then None else Some([r.0] + t.value)
  }

  /** The reader: a dotted text is IPv4, any other is IPv6. */
  function Read(s: string, big: bool): Option<IpAddr> {
    match Read4(s, 4)
    case Some(b) =>
      if |b| == 4 then Some(IpAddr(4, Zeroes(3), b + Zeroes(12))) else None
    case None =>
      match Read6(s, GROUPS)
      case Some(g) => if IsGroups(g) then Some(IpAddr(6, Zeroes(3), BytesOf(g, big))) else None
      case None => None
  }

  // ----- Digits

  lemma DigitValue(d: nat)
    requires d < 16
    ensures Value(Digit(d)) == Some(d) && Digit(d) != ':' && Digit(d) != '.'
    ensures d < 10 ==> '0' <= Digit(d) <= '9' && (Digit(d) - '0') as nat == d
  {
  }

  lemma HexSplit(v: nat)
    requires v < 0x1_0000
    ensures v / 4096 < 16
    ensures 4096 * (v / 4096) + 256 * (v / 256 % 16) + 16 * (v / 16 % 16) + v % 16 == v
  {
    NextDigit(v, 16, 256);
    NextDigit(v, 256, 4096);
  }

  lemma NextDigit(v: nat, small: nat, big: nat)
    requires (small == 16 && big == 256) || (small == 256 && big == 4096)
    ensures v / small == 16 * (v / big) + v / small % 16
  {
    if small == 16 {
      assert v / 256 == v / 16 / 16;
    } else {
      assert v / 4096 == v / 256 / 16;
    }
  }

  lemma HexValue(v: nat)
    requires v < 0x1_0000
    ensures ReadHex(Hex4(v)) == Some(v)
    ensures forall i :: 0 <= i < 4 ==> Hex4(v)[i] != ':' && Hex4(v)[i] != '.'
  {
    HexSplit(v);
    FourDigits(v / 4096, v / 256 % 16, v / 16 % 16, v % 16);
  }

  lemma FourDigits(a: nat, b: nat, c: nat, d: nat)
    requires a < 16 && b < 16 && c < 16 && d < 16
    ensures var s := [Digit(a), Digit(b), Digit(c), Digit(d)];
      && ReadHex(s) == Some(4096 * a + 256 * b + 16 * c + d)
      && forall i :: 0 <= i < 4 ==> s[i] != ':' && s[i] != '.'
  {
    DigitValue(a);
    DigitValue(b);
    DigitValue(c);
    DigitValue(d);
  }

  lemma GroupRead(v: nat, rest: string)
    requires v < 0x1_0000
    ensures var r := ReadGroups(rest); ReadGroups(Hex4(v) + ":" + rest) == ([v] + r.0, r.1)
    ensures ReadGroups(Hex4(v)) == ([v], "")
  {
    HexValue(v);
    var s := Hex4(v) + ":" + rest;
    assert s[..4] == Hex4(v) && s[5..] == rest && s[4] == ':';
    var h := Hex4(v);
    assert h[..4] == h && h[4..] == "";
    assert ReadGroups("") == ([], "");
    assert [v] + [] == [v];
  }

  // ----- IPv6 round trip

  lemma PrintGroup(g: seq<nat>, i: nat, first: Run, next: Run)
    requires IsGroups(g) && i < GROUPS
    requires Print6(g, i, first) ==
      Hex4(g[i]) + (if i + 1 != GROUPS then ":" else "") + Print6(g, i + 1, next)
    ensures var r := ReadGroups(Print6(g, i + 1, next));
      ReadGroups(Print6(g, i, first)) == ([g[i]] + r.0, r.1)
  {
    GroupRead(g[i], Print6(g, i + 1, next));
    if i + 1 == GROUPS {
      assert Print6(g, i, first) == Hex4(g[i]);
    }
  }

  lemma {:induction false} ReadAfter(g: seq<nat>, i: nat)
    requires IsGroups(g) && i <= GROUPS
    ensures ReadGroups(Print6(g, i, After)) == (g[i..], "")
    decreases GROUPS - i
  {
    if i == GROUPS {
      NothingLeft(g);
    } else {
      ReadAfter(g, i + 1);
      PrintGroup(g, i, After, After);
      HeadAndTail(g, i);
    }
  }

  lemma NothingLeft(g: seq<nat>)
    requires IsGroups(g)
    ensures g[GROUPS..] == [] && ReadGroups("") == ([], "")
    ensures Read6("", 0) == Some([])
  {
  }

  lemma {:induction false} ReadIn(g: seq<nat>, i: nat, k: nat) returns (post: seq<nat>)
    requires IsGroups(g) && i <= GROUPS
    ensures ReadGroups(Print6(g, i, In(k))) == (post, "")
    ensures |post| <= GROUPS - i && g[i..] == Zeroes(GROUPS - i - |post|) + post
    decreases GROUPS - i
  {
    if i == GROUPS {
      NothingLeft(g);
      post := [];
      NoZeroes(post);
    } else if g[i] == 0 {
      post := ReadIn(g, i + 1, k);
      OneZeroMore(GROUPS - i - 1 - |post|, post);
      assert g[i..] == [0] + g[i + 1..];
    } else {
      ReadAfter(g, i + 1);
      PrintGroup(g, i, In(k), After);
      post := g[i..];
      NoZeroes(post);
      assert g[i..] == [g[i]] + g[i + 1..];
    }
  }

  lemma NoZeroes(post: seq<nat>)
    ensures Zeroes(0) + post == post
  {
  }

  lemma OneZeroMore(n: nat, post: seq<nat>)
    ensures Zeroes(n + 1) + post == [0] + (Zeroes(n) + post)
  {
  }

  lemma NoGroup(s: string)
    requires |s| >= 1 && s[0] == ':'
    ensures ReadGroups(s) == ([], s)
  {
    if |s| >= 4 {
      assert s[..4][0] == ':';
    }
  }

  lemma ReadColons(tail: string, post: seq<nat>, n: nat, rest: seq<nat>)
    requires ReadGroups(tail) == (post, "") && |post| < n
    requires rest == Zeroes(n - 1 - |post|) + post
    ensures Read6("::" + tail, n) == Some([0] + rest)
  {
    var s := "::" + tail;
    assert s[..2] == "::" && s[2..] == tail;
    NoGroup(s);
    OneZeroMore(n - 1 - |post|, post);
    assert [] + Zeroes(n - |post|) == Zeroes(n - |post|);
  }

  lemma HeadAndTail(g: seq<nat>, i: nat)
    requires i < |g|
    ensures g[i..] == [g[i]] + g[i + 1..]
  {
  }

  lemma ReadRun(g: seq<nat>, i: nat)
    requires IsGroups(g) && i < GROUPS && g[i] == 0
    ensures Read6(Print6(g, i, Before), GROUPS - i) == Some(g[i..])
  {
    var post := ReadIn(g, i + 1, i);
    ReadColons(Print6(g, i + 1, In(i)), post, GROUPS - i, g[i + 1..]);
    HeadAndTail(g, i);
  }

  lemma {:induction false} ReadBefore(g: seq<nat>, i: nat)
    requires IsGroups(g) && i <= GROUPS
    ensures Read6(Print6(g, i, Before), GROUPS - i) == Some(g[i..])
    decreases GROUPS - i
  {
    if i == GROUPS {
      NothingLeft(g);
    } else if g[i] == 0 {
      ReadRun(g, i);
    } else {
      ReadBefore(g, i + 1);
      PrintGroup(g, i, Before, Before);
      FrontGroup(g[i], Print6(g, i, Before), Print6(g, i + 1, Before), GROUPS - i, g[i + 1..]);
      HeadAndTail(g, i);
    }
  }

  lemma FrontGroup(v: nat, s: string, t: string, n: nat, g: seq<nat>)
    requires ReadGroups(s) == ([v] + ReadGroups(t).0, ReadGroups(t).1)
    requires n > 0 && Read6(t, n - 1) == Some(g)
    ensures Read6(s, n) == Some([v] + g)
  {
    var r := ReadGroups(t);
    if r.1 != "" {
      var u := ReadGroups(r.1[2..]);
      Regroup([v], r.0, Zeroes(n - 1 - |r.0| - |u.0|), u.0);
    }
  }

  lemma Regroup<T>(a: seq<T>, b: seq<T>, c: seq<T>, d: seq<T>)
    ensures a + (b + c + d) == a + b + c + d
  {
  }

  lemma BytesBack(b: seq<nat>, big: bool)
    requires |b| == 16 && forall i :: 0 <= i < 16 ==> b[i] < 256
    ensures BytesOf(GroupsOf(b, big), big) == b
  {
    var c := BytesOf(GroupsOf(b, big), big);
    forall k | 0 <= k < 16 ensures c[k] == b[k] {
      var i := k / 2;
      assert GroupsOf(b, big)[i] == Group(b, i, big);
      assert k == 2 * i || k == 2 * i + 1;
    }
  }

  // ----- IPv4 round trip

  lemma ReadDigit(d: nat, rest: string, acc: nat)
    requires d < 10
    ensures ReadDec([Digit(d)] + rest, acc) == ReadDec(rest, 10 * acc + d)
  {
    DigitValue(d);
    assert ([Digit(d)] + rest)[1..] == rest;
  }

  lemma ReadEnd(rest: string, acc: nat)
    requires rest == "" || !('0' <= rest[0] <= '9')
    ensures ReadDec(rest, acc) == (acc, rest)
  {
  }

  lemma ReadTwo(d: nat, e: nat, rest: string, acc: nat)
    requires d < 10 && e < 10 && (rest == "" || !('0' <= rest[0] <= '9'))
    ensures ReadDec([Digit(d), Digit(e)] + rest, acc) == (10 * (10 * acc + d) + e, rest)
  {
    assert [Digit(d), Digit(e)] + rest == [Digit(d)] + ([Digit(e)] + rest);
    ReadDigit(d, [Digit(e)] + rest, acc);
    ReadDigit(e, rest, 10 * acc + d);
    ReadEnd(rest, 10 * (10 * acc + d) + e);
  }

  lemma DecSplit(b: nat)
    requires b < 256
    ensures 10 * (10 * (b / 100) + b / 10 % 10) + b % 10 == b && b / 100 < 10
    ensures b < 100 ==> 10 * (b / 10) + b % 10 == b && b / 10 < 10
  {
  }

  lemma ReadThree(d: nat, e: nat, f: nat, rest: string)
    requires d < 10 && e < 10 && f < 10 && (rest == "" || !('0' <= rest[0] <= '9'))
    ensures ReadDec([Digit(d), Digit(e), Digit(f)] + rest, 0) == (10 * (10 * d + e) + f, rest)
  {
    var two := [Digit(e), Digit(f)];
    assert [Digit(d), Digit(e), Digit(f)] + rest == [Digit(d)] + (two + rest);
    ReadDigit(d, two + rest, 0);
    ReadTwo(e, f, rest, d);
  }

  lemma DecValue(b: nat, rest: string)
    requires b < 256 && (rest == "" || !('0' <= rest[0] <= '9'))
    ensures ReadDec(Dec(b) + rest, 0) == (b, rest)
  {
    DecSplit(b);
    if b < 10 {
      ReadDigit(b, rest, 0);
      ReadEnd(rest, b);
    } else if b < 100 {
      ReadTwo(b / 10, b % 10, rest, 0);
    } else {
      ReadThree(b / 100, b / 10 % 10, b % 10, rest);
    }
  }

  lemma ReadPart(b: nat, rest: string, n: nat, t: seq<nat>)
    requires b < 256 && n > 1 && Read4(rest, n - 1) == Some(t)
    ensures Read4(Dec(b) + ("." + rest), n) == Some([b] + t)
  {
    DecValue(b, "." + rest);
    assert ("." + rest)[1..] == rest;
  }

  lemma Read4Back(b: seq<nat>)
    requires |b| == 4 && forall i :: 0 <= i < 4 ==> b[i] < 256
    ensures Read4(Print4(b), 4) == Some(b)
  {
    DecValue(b[3], "");
    assert Dec(b[3]) + "" == Dec(b[3]);
    ReadPart(b[2], Dec(b[3]), 2, [b[3]]);
    ReadPart(b[1], Dec(b[2]) + ("." + Dec(b[3])), 3, [b[2]] + [b[3]]);
    ReadPart(b[0], Dec(b[1]) + ("." + (Dec(b[2]) + ("." + Dec(b[3])))), 4, [b[1]] + ([b[2]] + [b[3]]));
    assert b == [b[0]] + ([b[1]] + ([b[2]] + [b[3]]));
  }

  // ----- Telling the two apart

  ghost predicate NoPoint(s: string) { forall i :: 0 <= i < |s| ==> s[i] != '.' }

  lemma {:induction false} NoPointNo4(s: string, acc: nat)
    requires NoPoint(s)
    ensures NoPoint(ReadDec(s, acc).1)
  {
    if s != "" && '0' <= s[0] <= '9' {
      assert forall i :: 0 <= i < |s[1..]| ==> s[1..][i] == s[i + 1];
      NoPointNo4(s[1..], 10 * acc + (s[0] - '0') as nat);
    }
  }

  lemma Joined(a: string, b: string)
    requires NoPoint(a) && NoPoint(b)
    ensures NoPoint(a + b)
  {
  }

  lemma {:induction false} Print6HasNoPoint(g: seq<nat>, i: nat, first: Run)
    requires IsGroups(g) && i <= GROUPS
    ensures NoPoint(Print6(g, i, first))
    decreases GROUPS - i
  {
    if i < GROUPS {
      if first.Before? && g[i] == 0 {
        Print6HasNoPoint(g, i + 1, In(i));
        Joined("::", Print6(g, i + 1, In(i)));
      } else if first.In? && g[i] == 0 {
        Print6HasNoPoint(g, i + 1, first);
      } else {
        HexValue(g[i]);
        var colon := if i + 1 != GROUPS then ":" else "";
        var next := if first != Before && g[i] != 0 then After else first;
        Print6HasNoPoint(g, i + 1, next);
        Joined(Hex4(g[i]), colon);
        Joined(Hex4(g[i]) + colon, Print6(g, i + 1, next));
      }
    }
  }

  lemma AnyIsNoAddress(big: bool)
    ensures Read("ANY", big) == None
  {
    assert ReadDec("ANY", 0) == (0, "ANY");
    assert ReadGroups("ANY") == ([], "ANY");
    assert "ANY"[..2] == "AN";
  }

  /** The address has the unused bytes zero, as IPv4 or as all 16 bytes. */
  predicate Readable(a: IpAddr) {
    a.padding == Zeroes(3) && ((a.len == 4 && a.addr[4..] == Zeroes(12)) || a.len == 6)
  }

  lemma Ip4Back(a: IpAddr, big: bool)
    requires IsByteAddr(a) && a.len == 4
    ensures Read(Print(a, big), big) == Some(IpAddr(4, Zeroes(3), a.addr[..4] + Zeroes(12)))
  {
    Read4Back(a.addr[..4]);
  }

  lemma Ip6Back(a: IpAddr, big: bool)
    requires IsByteAddr(a) && a.len == 6
    ensures Read(Print(a, big), big) == Some(IpAddr(6, Zeroes(3), a.addr))
  {
    var g := GroupsOf(a.addr, big);
    Print6HasNoPoint(g, 0, Before);
    NoPointNo4(Print(a, big), 0);
    ReadBefore(g, 0);
    assert g[0..] == g;
    BytesBack(a.addr, big);
  }

  /** The text determines the address exactly for IPv4 and IPv6 addresses whose unused bytes are zero. */
  lemma ReadUndoesPrintIff(a: IpAddr, big: bool)
    requires IsByteAddr(a)
    ensures Read(Print(a, big), big) == Some(a) <==> Readable(a)
  {
    if a.len == 4 {
      Ip4Back(a, big);
      assert a.addr == a.addr[..4] + a.addr[4..];
    } else if a.len == 6 {
      Ip6Back(a, big);
    } else {
      AnyIsNoAddress(big);
    }
  }

  // ----- What the text is

  /** Lower-case hexadecimal digits. */
  lemma DigitIs(d: nat)
    requires d < 16
    ensures Digit(d) == "0123456789abcdef"[d]
  {
  }

  /** A byte in decimal: digits only, no leading zero, and the value it denotes. */
  lemma DecIs(b: nat)
    requires b < 256
    ensures var s := Dec(b);
      && (forall i :: 0 <= i < |s| ==> '0' <= s[i] <= '9') && (|s| > 1 ==> s[0] != '0')
      && (|s| == 1 ==> b == (s[0] - '0') as nat)
      && (|s| == 2 ==> b == 10 * (s[0] - '0') as nat + (s[1] - '0') as nat)
      && (|s| == 3 ==> b == 100 * (s[0] - '0') as nat + 10 * (s[1] - '0') as nat + (s[2] - '0') as nat)
      && 1 <= |s| <= 3
  {
    DecSplit(b);
  }

  lemma Hex4Is(v: nat)
    requires v < 0x1_0000
    ensures v / 4096 < 16
    ensures Hex4(v) == ["0123456789abcdef"[v / 4096], "0123456789abcdef"[v / 256 % 16],
                        "0123456789abcdef"[v / 16 % 16], "0123456789abcdef"[v % 16]]
  {
    DigitIs(v / 4096);
    DigitIs(v / 256 % 16);
    DigitIs(v / 16 % 16);
    DigitIs(v % 16);
  }

  /** Two bytes, two hexadecimal digits each, the more significant first. */
  lemma HexOfBytes(hi: nat, lo: nat)
    requires hi < 256 && lo < 256
    ensures 256 * hi + lo < 0x1_0000
    ensures Hex4(256 * hi + lo) == ["0123456789abcdef"[hi / 16], "0123456789abcdef"[hi % 16],
                                    "0123456789abcdef"[lo / 16], "0123456789abcdef"[lo % 16]]
  {
    TwoBytes(hi, lo);
    Hex4Is(256 * hi + lo);
  }

  lemma TwoBytes(hi: nat, lo: nat)
    requires hi < 256 && lo < 256
    ensures var v := 256 * hi + lo;
      v < 0x1_0000 && v / 4096 == hi / 16 && v / 256 % 16 == hi % 16 && v / 16 % 16 == lo / 16 && v % 16 == lo % 16
  {
  }

  /** The groups from `i` up to `j`, each with a ":" behind it unless it is the eighth. */
  function Groups(g: seq<nat>, i: nat, j: nat): string
    requires IsGroups(g) && i <= j <= 8
    decreases (j - i)
  {
    if i == j then "" else Hex4(g[i]) + (if i == 7 then "" else ":") + Groups(g, i + 1, j)
  }

  /** `z` is the first zero group from `i` on, or 8, and `e` is the first behind it that is not zero, or 8. */
  ghost predicate ZeroRun(g: seq<nat>, i: nat, z: nat, e: nat)
    requires IsGroups(g)
  {
    && i <= z <= e <= 8 && (forall k :: i <= k < z ==> g[k] != 0) && (forall k :: z <= k < e ==> g[k] == 0)
    && (z < 8 ==> z < e) && (e < 8 ==> g[e] != 0)
  }

  lemma {:induction false} PrintAfter(g: seq<nat>, i: nat)
    requires IsGroups(g) && i <= 8
    ensures Print6(g, i, After) == Groups(g, i, 8)
    decreases 8 - i
  {
    if i < 8 {
      PrintAfter(g, i + 1);
    }
  }

  lemma {:induction false} PrintIn(g: seq<nat>, i: nat, e: nat, k: nat)
    requires IsGroups(g) && i <= e <= 8 && (forall j :: i <= j < e ==> g[j] == 0) && (e < 8 ==> g[e] != 0)
    ensures Print6(g, i, In(k)) == Groups(g, e, 8)
    decreases 8 - i
  {
    if i < e {
      PrintIn(g, i + 1, e, k);
    } else if i < 8 {
      PrintAfter(g, i + 1);
    }
  }

  /** The first run of zero groups becomes "::", and every other group is printed, later zero groups included. */
  lemma {:induction false} PrintBefore(g: seq<nat>, i: nat, z: nat, e: nat)
    requires IsGroups(g) && i <= 8 && ZeroRun(g, i, z, e)
    ensures Print6(g, i, Before) == Groups(g, i, z) + (if z < 8 then "::" else "") + Groups(g, e, 8)
    decreases 8 - i
  {
    if i == z {
      PrintRun(g, z, e);
    } else {
      PrintBefore(g, i + 1, z, e);
      PrintOn(g, i, z, if z < 8 then "::" else "", Groups(g, e, 8));
    }
  }

  lemma PrintOn(g: seq<nat>, i: nat, z: nat, run: string, rest: string)
    requires IsGroups(g) && i < z <= 8 && g[i] != 0
    requires Print6(g, i + 1, Before) == Groups(g, i + 1, z) + run + rest
    ensures Print6(g, i, Before) == Groups(g, i, z) + run + rest
  {
    PrintHead(g, i, z);
    Prefixed(Print6(g, i, Before), Print6(g, i + 1, Before), Hex4(g[i]) + if i == 7 then "" else ":",
             Groups(g, i, z), Groups(g, i + 1, z), run, rest);
  }

  lemma PrintRun(g: seq<nat>, z: nat, e: nat)
    requires IsGroups(g) && z <= 8 && ZeroRun(g, z, z, e)
    ensures Print6(g, z, Before) == Groups(g, z, z) + (if z < 8 then "::" else "") + Groups(g, e, 8)
  {
    if z < 8 {
      PrintIn(g, z + 1, e, z);
    }
  }

  lemma PrintHead(g: seq<nat>, i: nat, z: nat)
    requires IsGroups(g) && i < z <= 8 && g[i] != 0
    ensures var head := Hex4(g[i]) + if i == 7 then "" else ":";
      && Print6(g, i, Before) == head + Print6(g, i + 1, Before)
      && Groups(g, i, z) == head + Groups(g, i + 1, z)
  {
  }

  lemma Prefixed(all: string, rest: string, head: string, a': string, a: string, b: string, c: string)
    requires all == head + rest && rest == a + b + c && a' == head + a
    ensures all == a' + b + c
  {
  }

  lemma {:induction false} FirstRun(g: seq<nat>, i: nat) returns (z: nat, e: nat)
    requires IsGroups(g) && i <= 8
    ensures ZeroRun(g, i, z, e)
    decreases 8 - i
  {
    if i == 8 {
      z, e := 8, 8;
    } else if g[i] != 0 {
      z, e := FirstRun(g, i + 1);
    } else {
      z, e := i, i + 1;
      while e < 8 && g[e] == 0
        invariant i < e <= 8 && forall k :: i <= k < e ==> g[k] == 0
      {
        e := e + 1;
      }
    }
  }

  /** The whole text, in the three cases of the printer. On a little-endian machine the second byte of a group in
      memory is the more significant. */
  lemma TextIs(a: IpAddr, big: bool) returns (z: nat, e: nat)
    requires IsByteAddr(a)
    ensures a.len == 4 ==>
      Print(a, big) == Dec(a.addr[0]) + "." + Dec(a.addr[1]) + "." + Dec(a.addr[2]) + "." + Dec(a.addr[3])
    ensures a.len == 6 ==>
      var g := GroupsOf(a.addr, big);
      && (forall i :: 0 <= i < 8 ==>
            g[i] == if big then 256 * a.addr[2 * i] + a.addr[2 * i + 1] else 256 * a.addr[2 * i + 1] + a.addr[2 * i])
      && ZeroRun(g, 0, z, e)
      && Print(a, big) == Groups(g, 0, z) + (if z < 8 then "::" else "") + Groups(g, e, 8)
    ensures a.len != 4 && a.len != 6 ==> Print(a, big) == "ANY"
  {
    z, e := FirstRun(GroupsOf(a.addr, big), 0);
    PrintBefore(GroupsOf(a.addr, big), 0, z, e);
  }

  // ----- The buffer

  lemma {:induction false} Print6Length(g: seq<nat>, i: nat, first: Run)
    requires IsGroups(g) && i <= GROUPS
    ensures |Print6(g, i, first)| <= if i == GROUPS then 0 else 5 * (GROUPS - i) - 1
    ensures first.Before? && (forall k :: i <= k < GROUPS ==> g[k] != 0) && i < GROUPS ==>
      |Print6(g, i, first)| == 5 * (GROUPS - i) - 1
    decreases GROUPS - i
  {
    if i < GROUPS {
      if first.Before? && g[i] == 0 {
        Print6Length(g, i + 1, In(i));
      } else if first.In? && g[i] == 0 {
        Print6Length(g, i + 1, first);
      } else {
        Print6Length(g, i + 1, if first != Before && g[i] != 0 then After else first);
      }
    }
  }

  /** Text and terminator fit the buffer, and an address without zero groups fills it to the last byte. */
  lemma FitsBuffer(a: IpAddr, big: bool)
    requires IsByteAddr(a)
    ensures |Print(a, big)| + 1 <= 40
    ensures a.len == 6 && (forall i :: 0 <= i < 8 ==> GroupsOf(a.addr, big)[i] != 0) ==> |Print(a, big)| + 1 == 40
  {
    if a.len == 6 {
      Print6Length(GroupsOf(a.addr, big), 0, Before);
    }
  }

  /** `sprintf(buf + l, text)`: the text and a terminator. */
  method Sprintf(buf: array<char>, l: nat, text: string) returns (n: nat)
    requires l + |text| < buf.Length
    modifies buf
    ensures n == |text|
    ensures buf[..l + n] == old(buf[..l]) + text && buf[l + n] == '\0'
  {
    n := |text|;
    forall i | 0 <= i < n {
      buf[l + i] := text[i];
    }
    buf[l + n] := '\0';
  }

  /** `nfs_ip2str` into a buffer of at least `NFS_IPSTR`, that is 40, bytes. */
  method Ip2Str(a: IpAddr, big: bool, buf: array<char>) returns (l: nat)
    requires IsByteAddr(a) && buf.Length >= 40
    modifies buf
    ensures l < 40 && buf[..l] == Print(a, big) && buf[l] == '\0'
  {
    assert |Print(a, big)| < 40 by { FitsBuffer(a, big); }
    if a.len == 4 {
      l := Sprintf(buf, 0, Print4(a.addr[..4]));
    } else if a.len == 6 {
      l := Print6Into(GroupsOf(a.addr, big), buf);
    } else {
      l := Sprintf(buf, 0, "ANY");
    }
  }

  function RunOf(first: int): Run {
    if first == -1 then Before else if first < 0 then After else In(first)
  }

  method Print6Into(g: seq<nat>, buf: array<char>) returns (l: nat)
    requires IsGroups(g) && buf.Length >= 40
    modifies buf
    ensures l < 40 && buf[..l] == Print6(g, 0, Before) && buf[l] == '\0'
  {
    Print6Length(g, 0, Before);
    ghost var all := Print6(g, 0, Before);
    l := 0;
    var first := -1;
    buf[0] := '\0';
    for i := 0 to GROUPS
      invariant first >= -2 && l <= |all| && buf[l] == '\0'
      invariant all == buf[..l] + Print6(g, i, RunOf(first))
    {
      first, l := PrintStep(g, i, first, buf, l);
    }
  }

  /** One turn of the printing loop. */
  method PrintStep(g: seq<nat>, i: nat, first: int, buf: array<char>, l: nat) returns (first': int, l': nat)
    requires IsGroups(g) && i < GROUPS && first >= -2
    requires l + |Print6(g, i, RunOf(first))| < buf.Length && buf[l] == '\0'
    modifies buf
    ensures first' >= -2 && l' < buf.Length && buf[l'] == '\0'
    ensures buf[..l'] + Print6(g, i + 1, RunOf(first')) == old(buf[..l]) + Print6(g, i, RunOf(first))
  {
    ghost var pre := buf[..l];
    if first == -1 && g[i] == 0 {
      first' := i;
      Rest(pre, "::", Print6(g, i + 1, RunOf(first')));
      var n := Sprintf(buf, l, "::");
      l' := l + n;
    } else if first != -1 && first != -2 && g[i] == 0 {
      first', l' := first, l;
    } else {
      first' := if first != -1 && g[i] != 0 then -2 else first;
      ghost var text := Hex4(g[i]) + if i + 1 != GROUPS then ":" else "";
      assert Print6(g, i, RunOf(first)) == text + Print6(g, i + 1, RunOf(first'));
      Rest(pre, text, Print6(g, i + 1, RunOf(first')));
      var n := PrintGroupInto(g, i, buf, l);
      l' := l + n;
    }
  }

  lemma Rest(pre: string, text: string, tail: string)
    ensures pre + (text + tail) == (pre + text) + tail
  {
  }

  /** One group, with a ":" unless it is the last. */
  method PrintGroupInto(g: seq<nat>, i: nat, buf: array<char>, l: nat) returns (n: nat)
    requires IsGroups(g) && i < GROUPS && l + 4 + (if i + 1 != GROUPS then 1 else 0) < buf.Length
    modifies buf
    ensures n == 4 + (if i + 1 != GROUPS then 1 else 0)
    ensures buf[..l + n] == old(buf[..l]) + (Hex4(g[i]) + if i + 1 != GROUPS then ":" else "")
    ensures buf[l + n] == '\0'
  {
    n := Sprintf(buf, l, Hex4(g[i]));
    if i + 1 != GROUPS {
      var k := Sprintf(buf, l + n, ":");
      n := n + k;
    }
  }
}
