/** bytesToB64 and b64ToBytes: base64 per section 4 of RFC 4648, decoded with the browser's
    forgiving rules (white space skipped, padding optional, trailing bits ignored). */
module Base64 {
  import opened Common
  import opened GuestMemory

  type sextet = x: int | 0 <= x < 64

  function Digit(n: sextet): char {
    if n < 26 then 'A' + n as char
    else if n < 52 then 'a' + (n - 26) as char
    else if n < 62 then '0' + (n - 52) as char
    else if n == 62 then '+' else '/'
  }

  predicate IsDigit(c: char) {
    'A' <= c <= 'Z' || 'a' <= c <= 'z' || '0' <= c <= '9' || c == '+' || c == '/'
  }

  function Value(c: char): sextet
    requires IsDigit(c)
  {
    if 'A' <= c <= 'Z' then c as int - 'A' as int
    else if 'a' <= c <= 'z' then c as int - 'a' as int + 26
    else if '0' <= c <= '9' then c as int - '0' as int + 52
    else if c == '+' then 62 else 63
  }

  function ByteOr0(u: seq<byte>, k: nat): byte { if k < |u| then u[k] else 0 }

  /** Group c of quad k: three bytes make four groups, missing bytes count as zero. */
  function GroupAt(u: seq<byte>, k: nat, c: nat): sextet {
    var x, y, z := ByteOr0(u, 3 * k), ByteOr0(u, 3 * k + 1), ByteOr0(u, 3 * k + 2);
    if c == 0 then x / 4
    else if c == 1 then x % 4 * 16 + y / 16
    else if c == 2 then y % 16 * 4 + z / 64
    else z % 64
  }

  /** A rest of one or two bytes takes two or three groups. */
  function GroupCount(n: nat): nat { n / 3 * 4 + (if n % 3 == 0 then 0 else n % 3 + 1) }

  function Split(u: seq<byte>): seq<sextet> {
    seq(GroupCount(|u|), i requires 0 <= i < GroupCount(|u|) => GroupAt(u, i / 4, i % 4))
  }

  /** Whole bytes only: bits beyond the last byte are dropped. */
  function ByteCount(m: nat): nat { m / 4 * 3 + (if m % 4 < 2 then 0 else m % 4 - 1) }

  function GroupOr0(v: seq<sextet>, i: nat): int { if i < |v| then v[i] else 0 }

  /** Byte r of quad k. */
  function ByteAt(v: seq<sextet>, k: nat, r: nat): byte {
    var p, q, s, t := GroupOr0(v, 4 * k), GroupOr0(v, 4 * k + 1), GroupOr0(v, 4 * k + 2), GroupOr0(v, 4 * k + 3);
    if r == 0 then p * 4 + q / 16
    else if r == 1 then q % 16 * 16 + s / 4
    else s % 4 * 64 + t
  }

  function Join(v: seq<sextet>): seq<byte> {
    seq(ByteCount(|v|), i requires 0 <= i < ByteCount(|v|) => ByteAt(v, i / 3, i % 3))
  }

  function Text(v: seq<sextet>): string { seq(|v|, i requires 0 <= i < |v| => Digit(v[i])) }

  function Values(t: string): seq<sextet>
    requires AllDigits(t)
  {
    seq(|t|, i requires 0 <= i < |t| => Value(t[i]))
  }

  function Padding(n: nat): string {
    if n % 3 == 1 then "==" else if n % 3 == 2 then "=" else ""
  }

  /** btoa. */
  function Btoa(u: seq<byte>): string { Text(Split(u)) + Padding(|u|) }

  predicate IsSpace(c: char) { c == ' ' || c == '\t' || c == '\n' || c == '\r' || c as int == 12 }

  function WithoutSpace(s: string): (r: string)
    ensures (forall i :: 0 <= i < |s| ==> !IsSpace(s[i])) ==> r == s
  {
    if |s| == 0 then "" else (if IsSpace(s[0]) then "" else [s[0]]) + WithoutSpace(s[1..])
  }

  /** Only a text of whole quads has its one or two padding characters dropped. */
  function WithoutPadding(s: string): string {
    if |s| == 0 || |s| % 4 != 0 || s[|s| - 1] != '=' then s
    else if s[|s| - 2] != '=' then s[..|s| - 1]
    else s[..|s| - 2]
  }

  predicate AllDigits(t: string) { forall i :: 0 <= i < |t| ==> IsDigit(t[i]) }

  /** atob; None is the InvalidCharacterError it throws. */
  function Atob(s: string): Option<seq<byte>> {
    var t := WithoutPadding(WithoutSpace(s));
    if |t| % 4 == 1 || !AllDigits(t) then None else Some(Join(Values(t)))
  }

  // ---- the codec as the worker runs it ----------------------------------------

  /** The binary string is built from 32 KB slices, then encoded once. */
  method BytesToB64(u8: array<byte>) returns (r: string)
    ensures r == Btoa(u8[..])
  {
    var s: seq<byte> := [];
    var chunk := 0x8000;
    var i := 0;
    while i < u8.Length
      invariant i % 0x8000 == 0
      invariant s == u8[..if i < u8.Length then i else u8.Length]
    {
      var end := if i + chunk < u8.Length then i + chunk else u8.Length;
      s := s + u8[i..end];
      i := i + chunk;
    }
    assert u8[..u8.Length] == u8[..];
    r := Btoa(s);
  }

  method B64ToBytes(b64: string) returns (r: Option<array<byte>>)
    ensures r.Some? <==> Atob(b64).Some?
    ensures r.Some? ==> fresh(r.value) && r.value[..] == Atob(b64).value
  {
    var bin := Atob(b64);
    if bin.None? { return None; }
    var u8 := new byte[|bin.value|];
    for i := 0 to |bin.value|
      invariant forall k :: 0 <= k < i ==> u8[k] == bin.value[k]
    {
      u8[i] := bin.value[i];
    }
    return Some(u8);
  }

  /** Table 1 of RFC 4648: its anchors, and that each range runs on in order. */
  lemma StandardAlphabet(n: sextet)
    ensures Digit(0) == 'A' && Digit(25) == 'Z' && Digit(26) == 'a' && Digit(51) == 'z'
    ensures Digit(52) == '0' && Digit(61) == '9' && Digit(62) == '+' && Digit(63) == '/'
    ensures n < 61 && n != 25 && n != 51 ==> Digit(n + 1) as int == Digit(n) as int + 1
  {
  }

  /** Its test vectors for "f", "fo" and "foo" (section 10). */
  lemma StandardTexts()
    ensures Btoa([0x66]) == "Zg==" && Btoa([0x66, 0x6f]) == "Zm8=" && Btoa([0x66, 0x6f, 0x6f]) == "Zm9v"
  {
    assert Text(Split([0x66])) == "Zg";
    assert Text(Split([0x66, 0x6f])) == "Zm8";
    assert Text(Split([0x66, 0x6f, 0x6f])) == "Zm9v";
  }

  lemma {:induction false} SpaceIn(a: string, c: char, b: string)
    requires IsSpace(c)
    ensures WithoutSpace(a + [c] + b) == WithoutSpace(a + b)
  {
    if a == [] {
      assert a + [c] + b == [c] + b && a + b == b;
    } else {
      SpaceIn(a[1..], c, b);
      assert (a + [c] + b)[1..] == a[1..] + [c] + b && (a + b)[1..] == a[1..] + b;
    }
  }

  /** White space anywhere in a text makes no difference to the decoder. */
  lemma WhiteSpaceIsSkipped(a: string, c: char, b: string)
    requires c == ' ' || c == '\t' || c == '\n' || c == '\r' || c as int == 12
    ensures Atob(a + [c] + b) == Atob(a + b)
  {
    SpaceIn(a, c, b);
  }

  // ---- round trips --------------------------------------------------------------

  lemma TextValues(v: seq<sextet>)
    ensures AllDigits(Text(v)) && Values(Text(v)) == v
    ensures forall i :: 0 <= i < |v| ==> Text(v)[i] != '=' && !IsSpace(Text(v)[i])
  {
  }

  lemma ValuesText(t: string)
    requires AllDigits(t)
    ensures Text(Values(t)) == t
  {
  }

  lemma Counts(n: nat)
    ensures ByteCount(GroupCount(n)) == n && GroupCount(n) % 4 != 1
    ensures (GroupCount(n) + |Padding(n)|) % 4 == 0
    ensures n % 4 != 1 ==> GroupCount(ByteCount(n)) == n
  {
  }

  lemma GroupRead(u: seq<byte>, k: nat, c: nat)
    requires c < 4 && 4 * k + c < GroupCount(|u|)
    ensures GroupOr0(Split(u), 4 * k + c) == GroupAt(u, k, c)
  {
  }

  lemma ByteRead(v: seq<sextet>, k: nat, r: nat)
    requires r < 3 && 3 * k + r < ByteCount(|v|)
    ensures ByteOr0(Join(v), 3 * k + r) == ByteAt(v, k, r)
  {
  }

  lemma BytesOfGroups(x: byte, y: byte, z: byte)
    ensures x / 4 * 4 + (x % 4 * 16 + y / 16) / 16 == x
    ensures (x % 4 * 16 + y / 16) % 16 * 16 + (y % 16 * 4 + z / 64) / 4 == y
    ensures (y % 16 * 4 + z / 64) % 4 * 64 + z % 64 == z
  {
  }

  lemma GroupsOfBytes(p: sextet, q: sextet, s: sextet, t: sextet)
    ensures var x: int, y: int, z: int := p as int * 4 + q / 16, q as int % 16 * 16 + s / 4, s as int % 4 * 64 + t;
      && x / 4 == p && x % 4 * 16 == q / 16 * 16 && x % 4 * 16 + y / 16 == q
      && y % 16 * 4 == s / 4 * 4 && y % 16 * 4 + z / 64 == s && z % 64 == t
  {
  }

  lemma GroupsPresent(n: nat, k: nat, r: nat)
    requires r < 3 && 3 * k + r < n
    ensures 4 * k + r + 1 < GroupCount(n)
  {
  }

  lemma FirstByteBack(u: seq<byte>, k: nat)
    requires 3 * k < |u|
    ensures ByteAt(Split(u), k, 0) == u[3 * k]
  {
  }

  lemma SecondByteBack(u: seq<byte>, k: nat)
    requires 3 * k + 1 < |u|
    ensures ByteAt(Split(u), k, 1) == u[3 * k + 1]
  {
    GroupsPresent(|u|, k, 1);
    GroupRead(u, k, 1);
    GroupRead(u, k, 2);
    BytesOfGroups(u[3 * k], u[3 * k + 1], ByteOr0(u, 3 * k + 2));
  }

  lemma ThirdByteBack(u: seq<byte>, k: nat)
    requires 3 * k + 2 < |u|
    ensures ByteAt(Split(u), k, 2) == u[3 * k + 2]
  {
    GroupsPresent(|u|, k, 2);
    GroupRead(u, k, 2);
    GroupRead(u, k, 3);
    BytesOfGroups(u[3 * k], u[3 * k + 1], u[3 * k + 2]);
  }

  /** Byte r of quad k comes back from the two groups that hold its bits. */
  lemma ByteBack(u: seq<byte>, k: nat, r: nat)
    requires r < 3 && 3 * k + r < |u|
    ensures ByteAt(Split(u), k, r) == u[3 * k + r]
  {
    if r == 0 {
      FirstByteBack(u, k);
    } else if r == 1 {
      SecondByteBack(u, k);
    } else {
      ThirdByteBack(u, k);
    }
  }

  lemma JoinSplit(u: seq<byte>)
    ensures Join(Split(u)) == u
  {
    Counts(|u|);
    forall i | 0 <= i < |u| ensures Join(Split(u))[i] == u[i] { ByteBack(u, i / 3, i % 3); }
  }

  lemma NoSpaceInText(v: seq<sextet>, p: string)
    requires p == "" || p == "=" || p == "=="
    ensures WithoutSpace(Text(v) + p) == Text(v) + p
  {
  }

  /** Padding that completes the last quad is what atob strips, and only that. */
  lemma PaddedText(v: seq<sextet>, p: string)
    requires p == "" || p == "=" || p == "=="
    requires (|v| + |p|) % 4 == 0
    ensures WithoutPadding(Text(v) + p) == Text(v)
  {
  }

  /** Digits and the padding that completes their last quad decode to the bytes of the digits' values. */
  lemma AtobOfText(v: seq<sextet>, p: string)
    requires p == "" || p == "=" || p == "=="
    requires (|v| + |p|) % 4 == 0 && |v| % 4 != 1
    ensures Atob(Text(v) + p) == Some(Join(v))
  {
    NoSpaceInText(v, p);
    PaddedText(v, p);
    TextValues(v);
  }

  /** Every byte array survives the trip to base64 and back, in all three padding cases. */
  lemma RoundTrip(u: seq<byte>)
    ensures Atob(Btoa(u)) == Some(u)
  {
    Counts(|u|);
    AtobOfText(Split(u), Padding(|u|));
    JoinSplit(u);
  }

  /** The bits of the last group that encode nothing. */
  predicate SpareBitsZero(v: seq<sextet>) {
    (|v| % 4 == 2 ==> v[|v| - 1] % 16 == 0) && (|v| % 4 == 3 ==> v[|v| - 1] % 4 == 0)
  }

  /** The groups of a whole quad come back unchanged. */
  lemma WholeQuadBack(v: seq<sextet>, k: nat, c: nat)
    requires c < 4 && 4 * k + 3 < |v|
    ensures GroupAt(Join(v), k, c) == v[4 * k + c]
  {
    ByteRead(v, k, 0);
    ByteRead(v, k, 1);
    ByteRead(v, k, 2);
    GroupsOfBytes(v[4 * k], v[4 * k + 1], v[4 * k + 2], v[4 * k + 3]);
  }

  /** Of a quad cut to two groups, the second comes back without its last four bits. */
  lemma TwoGroupsBack(v: seq<sextet>, k: nat)
    requires |v| == 4 * k + 2
    ensures GroupAt(Join(v), k, 0) == v[4 * k] && GroupAt(Join(v), k, 1) == v[4 * k + 1] / 16 * 16
  {
  }

  /** Of a quad cut to three groups, the third comes back without its last two bits. */
  lemma ThreeGroupsBack(v: seq<sextet>, k: nat)
    requires |v| == 4 * k + 3
    ensures GroupAt(Join(v), k, 0) == v[4 * k] && GroupAt(Join(v), k, 1) == v[4 * k + 1]
    ensures GroupAt(Join(v), k, 2) == v[4 * k + 2] / 4 * 4
  {
  }

  /** Group c of quad k comes back from the bytes that hold its bits, unless some were dropped. */
  lemma GroupBack(v: seq<sextet>, k: nat, c: nat)
    requires |v| % 4 != 1 && c < 4 && 4 * k + c < |v|
    ensures GroupAt(Join(v), k, c) == v[4 * k + c] <==> 4 * k + c < |v| - 1 || SpareBitsZero(v)
  {
    if 4 * k + 3 < |v| {
      WholeQuadBack(v, k, c);
    } else if |v| == 4 * k + 2 {
      TwoGroupsBack(v, k);
    } else {
      ThreeGroupsBack(v, k);
    }
  }

  lemma SplitJoin(v: seq<sextet>)
    requires |v| % 4 != 1
    ensures Split(Join(v)) == v <==> SpareBitsZero(v)
  {
    Counts(|v|);
    forall i | 0 <= i < |v| ensures Split(Join(v))[i] == v[i] <==> i < |v| - 1 || SpareBitsZero(v) {
      GroupBack(v, i / 4, i % 4);
    }
    if Split(Join(v)) == v && |v| > 0 { assert Split(Join(v))[|v| - 1] == v[|v| - 1]; }
  }

  /** Whole quads of digits, the last one completed by padding, with no stray bits, white space or
      superfluous padding. */
  predicate Canonical(t: string) {
    var d := WithoutPadding(t);
    |t| % 4 == 0 && AllDigits(d) && SpareBitsZero(Values(d))
  }

  lemma EncodingIsCanonical(u: seq<byte>)
    ensures Canonical(Btoa(u))
  {
    var v := Split(u);
    Counts(|u|);
    PaddedText(v, Padding(|u|));
    TextValues(v);
    JoinSplit(u);
    SplitJoin(v);
  }

  lemma CanonicalSplits(t: string)
    requires Canonical(t)
    ensures var v := Values(WithoutPadding(t));
      t == Text(v) + Padding(ByteCount(|v|)) && (|v| + |Padding(ByteCount(|v|))|) % 4 == 0 && |v| % 4 != 1
  {
    var d := WithoutPadding(t);
    ValuesText(d);
    assert t == d + t[|d|..];
    Counts(|d|);
    assert t[|d|..] == Padding(ByteCount(|d|));
  }

  /** The other direction: decoding a text and encoding the bytes again gives the text back exactly when it
      is canonical; any other text is refused or comes back changed. */
  lemma ReencodesExactlyWhenCanonical(t: string)
    ensures Atob(t).Some? && Btoa(Atob(t).value) == t <==> Canonical(t)
  {
    if Canonical(t) {
      var v := Values(WithoutPadding(t));
      CanonicalSplits(t);
      AtobOfText(v, Padding(ByteCount(|v|)));
      SplitJoin(v);
    }
    if Atob(t).Some? && Btoa(Atob(t).value) == t { EncodingIsCanonical(Atob(t).value); }
  }

  /** The padding may be left out, and what remains must be digits in whole bytes: one digit alone, a padded
      single one, padding in the middle and any other character are refused. */
  lemma PaddingIsOptional(u: seq<byte>)
    ensures |Text(Split(u))| <= |Btoa(u)| && Btoa(u)[..|Text(Split(u))|] == Text(Split(u))
    ensures Atob(Text(Split(u))) == Some(u)
  {
    var v := Split(u);
    Counts(|u|);
    TextValues(v);
    JoinSplit(u);
    PlainText(Text(v));
    assert Btoa(u) == Text(v) + Padding(|u|);
  }

  lemma PlainText(t: string)
    requires AllDigits(t)
    ensures WithoutPadding(WithoutSpace(t)) == t
  {
    assert forall i :: 0 <= i < |t| ==> IsDigit(t[i]) && !IsSpace(t[i]) && t[i] != '=';
  }

  /** A text that, without its white space, has a character that is neither a digit nor final padding is refused. */
  lemma StrangersAreRefused(a: string, c: char, b: string)
    requires !IsDigit(c) && c != '=' && !IsSpace(c) && AllDigits(a) && AllDigits(b)
    ensures Atob(a + [c] + b).None?
  {
    var t := a + [c] + b;
    assert t[|a|] == c && forall i :: 0 <= i < |t| ==> !IsSpace(t[i]) && t[i] != '=';
  }
}
