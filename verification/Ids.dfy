/**
 Typed identifiers (`protocol/ids/ids.go`) and their Java twin
 (`server/.../api/grpc/ProtocolIds.java`): a kind, a dash and a UUID of version 7 as section 5.7 of
 RFC 9562 lays it out. Clock and random bytes are parameters.
 */
module Ids {
  import opened Wrappers
  import C = Changes

  newtype byte = x: int | 0 <= x < 256

  type Uuid = u: seq<byte> | |u| == 16 witness seq(16, i => 0)

  const KINDS := {"MSG", "CALL", "SES", "PRJ", "WS", "WI", "WF", "APR", "CHG", "TASK", "EXEC"}

  // ----- Hexadecimal -----

  function Digit(n: int): char
    requires 0 <= n < 16
  {
    if n < 10 then '0' + n as char else 'a' + (n - 10) as char
  }

  /** The value of a digit in either case. */
  function DigitValue(c: char): (n: Option<int>)
    ensures n.Some? ==> 0 <= n.value < 16
  {
    if '0' <= c <= '9' then Some(c as int - '0' as int)
    else if 'a' <= c <= 'f' then Some(c as int - 'a' as int + 10)
    else if 'A' <= c <= 'F' then Some(c as int - 'A' as int + 10)
    else None
  }

  function LowerChar(c: char): char { if 'A' <= c <= 'F' then c - 'A' + 'a' else c }

  function Lower(s: string): string { seq(|s|, i requires 0 <= i < |s| => LowerChar(s[i])) }

  function Hex(bytes: seq<byte>): (s: string)
    ensures |s| == 2 * |bytes|
  {
    if bytes == [] then "" else [Digit(bytes[0] as int / 16), Digit(bytes[0] as int % 16)] + Hex(bytes[1..])
  }

  function Unhex(s: string): Option<seq<byte>> {
    if s == "" then Some([])
    else if |s| == 1 || DigitValue(s[0]) == None || DigitValue(s[1]) == None then None
    else
      match Unhex(s[2..])
      case None => None
      case Some(rest) => Some([(16 * DigitValue(s[0]).value + DigitValue(s[1]).value) as byte] + rest)
  }

  lemma {:induction false} HexAt(bytes: seq<byte>, k: nat)
    requires k < |bytes|
    ensures Hex(bytes)[2 * k] == Digit(bytes[k] as int / 16) && Hex(bytes)[2 * k + 1] == Digit(bytes[k] as int % 16)
  {
    if k > 0 {
      HexAt(bytes[1..], k - 1);
    }
  }

  lemma {:induction false} HexConcat(a: seq<byte>, b: seq<byte>)
    ensures Hex(a + b) == Hex(a) + Hex(b)
  {
    if a == [] {
      assert a + b == b;
    } else {
      HexConcat(a[1..], b);
      assert (a + b)[1..] == a[1..] + b;
    }
  }

  lemma DigitReads(n: int)
    requires 0 <= n < 16
    ensures DigitValue(Digit(n)) == Some(n) && LowerChar(Digit(n)) == Digit(n) && Digit(n) != '-'
  {
  }

  lemma {:induction false} UnhexOfHex(bytes: seq<byte>)
    ensures Unhex(Hex(bytes)) == Some(bytes)
  {
    if bytes != [] {
      UnhexOfHex(bytes[1..]);
      DigitReads(bytes[0] as int / 16);
      DigitReads(bytes[0] as int % 16);
      assert Hex(bytes)[2..] == Hex(bytes[1..]);
      assert [bytes[0]] + bytes[1..] == bytes;
    }
  }

  lemma {:induction false} HexOfUnhex(s: string)
    requires Unhex(s).Some?
    ensures Hex(Unhex(s).value) == Lower(s) && 2 * |Unhex(s).value| == |s|
  {
    if s != "" {
      HexOfUnhex(s[2..]);
      PairOfValues(s[0], s[1]);
      hide Digit, DigitValue;
      var b := Unhex(s).value;
      assert b[1..] == Unhex(s[2..]).value;
      assert Lower(s) == [LowerChar(s[0]), LowerChar(s[1])] + Lower(s[2..]);
    }
  }

  /** The byte of two digits has these digits, in lower case. */
  lemma PairOfValues(c: char, d: char)
    requires DigitValue(c).Some? && DigitValue(d).Some?
    ensures var n := 16 * DigitValue(c).value + DigitValue(d).value;
            && 0 <= n < 256
            && Digit(n / 16) == LowerChar(c) && Digit(n % 16) == LowerChar(d)
  {
    DigitOfValue(c);
    DigitOfValue(d);
  }

  lemma DigitOfValue(c: char)
    requires DigitValue(c).Some?
    ensures Digit(DigitValue(c).value) == LowerChar(c)
  {
  }

  // ----- UUID text -----

  function Format(u: Uuid): string {
    Hex(u[0..4]) + ("-" + (Hex(u[4..6]) + ("-" + (Hex(u[6..8]) + ("-" + (Hex(u[8..10]) + ("-" + Hex(u[10..16]))))))))
  }

  predicate HasDashes(s: string) { |s| == 36 && s[8] == '-' && s[13] == '-' && s[18] == '-' && s[23] == '-' }

  function Compact(s: string): string
    requires HasDashes(s)
  {
    s[0..8] + (s[9..13] + (s[14..18] + (s[19..23] + s[24..36])))
  }

  function ParseUuid(s: string): Option<Uuid> {
    if !HasDashes(s) then None
    else
      match Unhex(Compact(s))
      case None => None
      case Some(bytes) => if |bytes| == 16 then Some(bytes) else None
  }

  lemma FormatParts(u: Uuid)
    ensures var s := Format(u);
            && HasDashes(s)
            && s[0..8] == Hex(u[0..4]) && s[9..13] == Hex(u[4..6]) && s[14..18] == Hex(u[6..8])
            && s[19..23] == Hex(u[8..10]) && s[24..36] == Hex(u[10..16])
  {
  }

  lemma HexOfFive(a: seq<byte>, b: seq<byte>, c: seq<byte>, d: seq<byte>, e: seq<byte>)
    ensures Hex(a + (b + (c + (d + e)))) == Hex(a) + (Hex(b) + (Hex(c) + (Hex(d) + Hex(e))))
  {
    hide Hex;
    HexConcat(d, e);
    HexConcat(c, d + e);
    HexConcat(b, c + (d + e));
    HexConcat(a, b + (c + (d + e)));
  }

  lemma CompactIsHex(u: Uuid)
    ensures HasDashes(Format(u)) && Compact(Format(u)) == Hex(u)
  {
    hide Format, Hex;
    FormatParts(u);
    HexOfFive(u[0..4], u[4..6], u[6..8], u[8..10], u[10..16]);
    assert u == u[0..4] + (u[4..6] + (u[6..8] + (u[8..10] + u[10..16])));
  }

  lemma ParseOfFormat(u: Uuid)
    ensures ParseUuid(Format(u)) == Some(u)
  {
    CompactIsHex(u);
    UnhexOfHex(u);
  }

  /** Text with dashes is determined by its compact form. */
  lemma SameCompact(s: string, t: string)
    requires HasDashes(s) && HasDashes(t) && Compact(s) == Compact(t)
    ensures s == t
  {
    var c := Compact(s);
    assert s[0..8] == c[0..8] && s[9..13] == c[8..12] && s[14..18] == c[12..16] && s[19..23] == c[16..20] &&
        s[24..36] == c[20..32];
    assert t[0..8] == c[0..8] && t[9..13] == c[8..12] && t[14..18] == c[12..16] && t[19..23] == c[16..20] &&
        t[24..36] == c[20..32];
    assert s == s[0..8] + "-" + s[9..13] + "-" + s[14..18] + "-" + s[19..23] + "-" + s[24..36];
    assert t == t[0..8] + "-" + t[9..13] + "-" + t[14..18] + "-" + t[19..23] + "-" + t[24..36];
  }

  lemma LowerCompact(s: string)
    requires HasDashes(s)
    ensures HasDashes(Lower(s)) && Compact(Lower(s)) == Lower(Compact(s))
  {
  }

  /** Formatting what was parsed gives the text in lower case. */
  lemma FormatOfParse(s: string)
    requires ParseUuid(s).Some?
    ensures Format(ParseUuid(s).value) == Lower(s)
  {
    var u := ParseUuid(s).value;
    hide Format, Hex, Unhex;
    HexOfUnhex(Compact(s));
    CompactIsHex(u);
    LowerCompact(s);
    SameCompact(Format(u), Lower(s));
  }

  // ----- Identifiers -----

  function Version(u: Uuid): int { u[6] as int / 16 }

  function Variant(u: Uuid): int { u[8] as int / 64 }

  predicate IsV7(u: Uuid) { Version(u) == 7 && Variant(u) == 2 }

  predicate IsSpace(c: char) {
    c in "\t\n\U{000B}\U{000C}\r \U{0085}\U{00A0}\U{1680}\U{2028}\U{2029}\U{202F}\U{205F}\U{3000}"
    || '\U{2000}' <= c <= '\U{200A}'
  }

  function TrimSpace(s: string): (t: string)
    ensures |t| <= |s|
    decreases |s|
  {
    if s == "" then s
    else if IsSpace(s[0]) then TrimSpace(s[1..])
    else if IsSpace(s[|s| - 1]) then TrimSpace(s[..|s| - 1])
    else s
  }

  /** Position of the first dash, or the length. */
  function DashAt(s: string): (i: nat)
    ensures i <= |s| && (forall k :: 0 <= k < i ==> s[k] != '-') && (i < |s| ==> s[i] == '-')
  {
    if s == "" || s[0] == '-' then 0 else 1 + DashAt(s[1..])
  }

  datatype Problem = Malformed | UnknownKind | BadUuid | WrongVersion | WrongVariant | WrongKind

  datatype Result<+T> = Ok(value: T) | Err(problem: Problem)

  function Split(id: string): Result<(string, string)> {
    var s := TrimSpace(id);
    var i := DashAt(s);
    if i == 0 || i >= |s| - 1 then Err(Malformed) else Ok((s[..i], s[i + 1..]))
  }

  function Parse(id: string): Result<(string, Uuid)> {
    match Split(id)
    case Err(p) => Err(p)
    case Ok((kind, text)) =>
      if kind !in KINDS then Err(UnknownKind)
      else
        match ParseUuid(text)
        case None => Err(BadUuid)
        case Some(u) =>
          if Version(u) != 7 then Err(WrongVersion)
          else if Variant(u) != 2 then Err(WrongVariant)
          else Ok((kind, u))
  }

  /** Why an identifier is not one of this kind, or None. */
  function Validate(kind: string, id: string): Option<Problem> {
    match Parse(id)
    case Err(p) => Some(p)
    case Ok((got, _)) => if got == kind then None else Some(WrongKind)
  }

  function IdOf(kind: string, u: Uuid): string { kind + ("-" + Format(u)) }

  /** Nothing is trimmed off a text that begins and ends with other characters. */
  lemma NothingTrimmed(s: string)
    requires s == "" || (!IsSpace(s[0]) && !IsSpace(s[|s| - 1]))
    ensures TrimSpace(s) == s
  {
  }

  predicate DashFree(s: string) { forall i :: 0 <= i < |s| ==> s[i] != '-' }

  lemma KindsArePlain(kind: string)
    requires kind in KINDS
    ensures kind != "" && DashFree(kind) && !IsSpace(kind[0])
  {
  }

  lemma HexIsNoSpace(n: int)
    requires 0 <= n < 16
    ensures !IsSpace(Digit(n))
  {
  }

  lemma SplitOfId(kind: string, text: string)
    requires kind != "" && DashFree(kind) && !IsSpace(kind[0]) && text != "" && !IsSpace(text[|text| - 1])
    ensures Split(kind + ("-" + text)) == Ok((kind, text))
  {
    hide IsSpace;
    var s := kind + ("-" + text);
    assert s[|s| - 1] == text[|text| - 1] && s[0] == kind[0];
    NothingTrimmed(s);
    assert DashAt(s) == |kind| by {
      assert s[|kind|] == '-' && forall k :: 0 <= k < |kind| ==> s[k] == kind[k];
    }
    assert s[..|kind|] == kind && s[|kind| + 1..] == text;
  }

  lemma CutAtDash(s: string, i: nat)
    requires i < |s| && s[i] == '-'
    ensures s[i..] == "-" + s[i + 1..]
  {
  }

  lemma FormatEnds(u: Uuid)
    ensures Format(u) != "" && !IsSpace(Format(u)[|Format(u)| - 1])
  {
    hide IsSpace;
    FormatParts(u);
    HexAt(u[10..16], 5);
    HexIsNoSpace(u[15] as int % 16);
    assert Format(u)[35] == Format(u)[24..36][11];
  }

  /** An identifier is read back as the kind and the bytes it was made from. */
  lemma ParseOfId(kind: string, u: Uuid)
    requires kind in KINDS
    ensures Parse(IdOf(kind, u))
            == if Version(u) != 7 then Err(WrongVersion) else if Variant(u) != 2 then Err(WrongVariant)
                else Ok((kind, u))
  {
    KindsArePlain(kind);
    FormatEnds(u);
    SplitOfId(kind, Format(u));
    ParseOfFormat(u);
  }

  /** What parses is, trimmed and in lower case behind its kind, the identifier of what it parses to. */
  lemma IdOfParse(id: string)
    requires Parse(id).Ok?
    ensures var (kind, u) := Parse(id).value;
            && kind in KINDS && IsV7(u)
            && kind <= TrimSpace(id) && IdOf(kind, u) == kind + Lower(TrimSpace(id)[|kind|..])
  {
    hide IsSpace, Format, ParseUuid, DashAt, TrimSpace;
    var s := TrimSpace(id);
    var (kind, text) := Split(id).value;
    FormatOfParse(text);
    CutAtDash(s, |kind|);
    assert Lower("-" + text) == "-" + Lower(text);
  }

  // ----- Generated identifiers -----

  const MS_LIMIT := 0x1_0000_0000_0000

  /** The number without its lowest `n` bytes: a shift to the right by 8n bits. */
  function Shifted(ms: nat, n: nat): nat { if n == 0 then ms else Shifted(ms, n - 1) / 256 }

  function ByteAt(ms: nat, n: nat): byte { (Shifted(ms, n) % 256) as byte }

  /** The time in the first six bytes, then random bytes with version and variant set. */
  function Stamp(ms: nat, random: Uuid): Uuid {
    [ByteAt(ms, 5), ByteAt(ms, 4), ByteAt(ms, 3), ByteAt(ms, 2), ByteAt(ms, 1), ByteAt(ms, 0)]
    + [(0x70 + random[6] as int % 16) as byte, random[7], (0x80 + random[8] as int % 64) as byte] + random[9..]
  }

  /** Whatever clock and random bytes gave, the identifier is valid for its kind, and for no other. */
  lemma GeneratedIsValid(kind: string, ms: nat, random: Uuid, other: string)
    requires kind in KINDS
    ensures Validate(other, IdOf(kind, Stamp(ms, random))) == None <==> other == kind
  {
    ParseOfId(kind, Stamp(ms, random));
  }

  lemma TimeFromBytes(ms: nat)
    ensures ms % MS_LIMIT
            == ByteAt(ms, 5) as int * 0x100_0000_0000 + ByteAt(ms, 4) as int * 0x1_0000_0000
               + ByteAt(ms, 3) as int * 0x100_0000 + ByteAt(ms, 2) as int * 0x1_0000
               + ByteAt(ms, 1) as int * 0x100 + ByteAt(ms, 0) as int
  {
    var s1, s2, s3, s4, s5 := ms / 256, ms / 256 / 256, ms / 256 / 256 / 256, ms / 256 / 256 / 256 / 256,
        ms / 256 / 256 / 256 / 256 / 256;
    assert ms == 256 * s1 + ByteAt(ms, 0) as int && s1 == 256 * s2 + ByteAt(ms, 1) as int;
    assert s2 == 256 * s3 + ByteAt(ms, 2) as int && s3 == 256 * s4 + ByteAt(ms, 3) as int;
    assert s4 == 256 * s5 + ByteAt(ms, 4) as int && s5 == 256 * (s5 / 256) + ByteAt(ms, 5) as int;
    LowPart(ms, s5 / 256,
            ByteAt(ms, 5) as int * 0x100_0000_0000 + ByteAt(ms, 4) as int * 0x1_0000_0000
            + ByteAt(ms, 3) as int * 0x100_0000 + ByteAt(ms, 2) as int * 0x1_0000
            + ByteAt(ms, 1) as int * 0x100 + ByteAt(ms, 0) as int);
  }

  lemma LowPart(x: nat, high: nat, low: nat)
    requires x == MS_LIMIT * high + low && low < MS_LIMIT
    ensures x % MS_LIMIT == low
  {
  }

  lemma TimeBytes(ms: nat, r: Uuid)
    ensures var u := Stamp(ms, r);
            && u[0] == ByteAt(ms, 5) && u[1] == ByteAt(ms, 4) && u[2] == ByteAt(ms, 3)
            && u[3] == ByteAt(ms, 2) && u[4] == ByteAt(ms, 1) && u[5] == ByteAt(ms, 0)
  {
  }

  /** The first byte in which two stamps of different times differ is smaller for the earlier one. */
  lemma FirstDifference(ms: nat, ms': nat, r: Uuid, r': Uuid) returns (k: nat)
    requires ms % MS_LIMIT < ms' % MS_LIMIT
    ensures k < 6 && Stamp(ms, r)[..k] == Stamp(ms', r')[..k] && Stamp(ms, r)[k] < Stamp(ms', r')[k]
  {
    TimeFromBytes(ms);
    TimeFromBytes(ms');
    var u, v := Stamp(ms, r), Stamp(ms', r');
    TimeBytes(ms, r);
    TimeBytes(ms', r');
    hide Stamp, ByteAt;
    k := 0;
    while k < 6 && u[k] == v[k]
      invariant k <= 6 && forall i :: 0 <= i < k ==> u[i] == v[i]
    {
      k := k + 1;
    }
  }

  /** Where the digits of byte `k` stand in the text. */
  function Position(k: nat): nat
    requires k < 16
  {
    2 * k + (if k < 4 then 0 else if k < 6 then 1 else if k < 8 then 2 else if k < 10 then 3 else 4)
  }

  lemma FormatAt(u: Uuid, k: nat)
    requires k < 6
    ensures |Format(u)| == 36
    ensures Format(u)[Position(k)] == Digit(u[k] as int / 16) && Format(u)[Position(k) + 1] == Digit(u[k] as int % 16)
  {
    FormatParts(u);
    var s := Format(u);
    if k < 4 {
      HexAt(u[0..4], k);
      assert s[2 * k] == s[0..8][2 * k] && s[2 * k + 1] == s[0..8][2 * k + 1];
    } else {
      HexAt(u[4..6], k - 4);
      assert s[2 * k + 1] == s[9..13][2 * k - 8] && s[2 * k + 2] == s[9..13][2 * k - 7];
    }
  }

  lemma SamePrefix(u: Uuid, v: Uuid, k: nat)
    requires k < 6 && u[..k] == v[..k]
    ensures |Format(u)| == 36 == |Format(v)| && Format(u)[..Position(k)] == Format(v)[..Position(k)]
  {
    hide Format, Digit;
    FormatParts(u);
    FormatParts(v);
    forall i | 0 <= i < Position(k) ensures Format(u)[i] == Format(v)[i] {
      if i != 8 {
        var j := if i < 8 then i / 2 else (i - 1) / 2;
        assert j < k && u[j] == u[..k][j] && v[j] == v[..k][j];
        FormatAt(u, j);
        FormatAt(v, j);
        assert i == Position(j) || i == Position(j) + 1;
      }
    }
  }

  lemma {:induction false} BeforeAt(a: string, b: string, i: nat)
    requires i < |a| && i < |b| && a[..i] == b[..i] && a[i] < b[i]
    ensures C.Before(a, b)
  {
    if i > 0 {
      assert a[0] == a[..i][0] && b[0] == b[..i][0];
      assert a[1..][..i - 1] == a[..i][1..] && b[1..][..i - 1] == b[..i][1..];
      BeforeAt(a[1..], b[1..], i - 1);
    }
  }

  lemma {:induction false} BeforeBehind(p: string, a: string, b: string)
    requires C.Before(a, b)
    ensures C.Before(p + a, p + b)
  {
    if p == "" {
      assert p + a == a && p + b == b;
    } else {
      BeforeBehind(p[1..], a, b);
      assert (p + a)[1..] == p[1..] + a && (p + b)[1..] == p[1..] + b;
    }
  }

  lemma SmallerByteSmallerText(u: Uuid, v: Uuid, k: nat)
    requires k < 6 && u[..k] == v[..k] && u[k] < v[k]
    ensures C.Before(Format(u), Format(v))
  {
    FormatAt(u, k);
    FormatAt(v, k);
    SamePrefix(u, v, k);
    var p := Position(k);
    if u[k] as int / 16 < v[k] as int / 16 {
      BeforeAt(Format(u), Format(v), p);
    } else {
      assert Format(u)[..p + 1] == Format(u)[..p] + [Format(u)[p]] &&
          Format(v)[..p + 1] == Format(v)[..p] + [Format(v)[p]];
      BeforeAt(Format(u), Format(v), p + 1);
    }
  }

  /** Identifiers of one kind sort by their time in milliseconds, as far as 48 bits hold it. */
  lemma EarlierSortsFirst(kind: string, ms: nat, ms': nat, r: Uuid, r': Uuid)
    requires ms % MS_LIMIT < ms' % MS_LIMIT
    ensures C.Before(IdOf(kind, Stamp(ms, r)), IdOf(kind, Stamp(ms', r')))
  {
    var k := FirstDifference(ms, ms', r, r');
    SmallerByteSmallerText(Stamp(ms, r), Stamp(ms', r'), k);
    BeforeBehind("-", Format(Stamp(ms, r)), Format(Stamp(ms', r')));
    BeforeBehind(kind, "-" + Format(Stamp(ms, r)), "-" + Format(Stamp(ms', r')));
  }

  /** With more than 48 bits the order turns around once. */
  lemma OrderTurnsAtTheLimit(kind: string, r: Uuid, r': Uuid)
    ensures C.Before(IdOf(kind, Stamp(MS_LIMIT, r')), IdOf(kind, Stamp(MS_LIMIT - 1, r)))
  {
    EarlierSortsFirst(kind, MS_LIMIT, MS_LIMIT - 1, r', r);
  }

  /** What of the random bytes goes into an identifier: 74 bits. */
  ghost predicate SameRandomPart(r: Uuid, r': Uuid) {
    r[6] as int % 16 == r'[6] as int % 16 && r[7] == r'[7] && r[8] as int % 64 == r'[8] as int % 64 && r[9..] == r'[9..]
  }

  lemma StampParts(ms: nat, r: Uuid)
    ensures var u := Stamp(ms, r);
            u[6] as int == 0x70 + r[6] as int % 16 && u[7] == r[7] && u[8] as int == 0x80 + r[8] as int % 64
            && u[9..] == r[9..]
  {
  }

  /** Two identifiers of one kind are equal only if their times and their random parts are. */
  lemma SameIdSameParts(kind: string, ms: nat, ms': nat, r: Uuid, r': Uuid)
    requires kind in KINDS && IdOf(kind, Stamp(ms, r)) == IdOf(kind, Stamp(ms', r'))
    ensures ms % MS_LIMIT == ms' % MS_LIMIT && SameRandomPart(r, r')
  {
    ParseOfId(kind, Stamp(ms, r));
    ParseOfId(kind, Stamp(ms', r'));
    TimeFromBytes(ms);
    TimeFromBytes(ms');
    TimeBytes(ms, r);
    TimeBytes(ms', r');
    StampParts(ms, r);
    StampParts(ms', r');
    hide Stamp, ByteAt;
  }

  // ----- The generator and the codec as they fill their buffers -----

  /** Writes two digits a byte from `at` on. */
  method EncodeInto(text: array<char>, at: nat, bytes: seq<byte>)
    requires at + 2 * |bytes| <= text.Length
    modifies text
    ensures text[at..at + 2 * |bytes|] == Hex(bytes)
    ensures forall i :: 0 <= i < text.Length && !(at <= i < at + 2 * |bytes|) ==> text[i] == old(text[i])
  {
    for k := 0 to |bytes|
      invariant text[at..at + 2 * k] == Hex(bytes[..k])
      invariant forall i :: 0 <= i < text.Length && !(at <= i < at + 2 * k) ==> text[i] == old(text[i])
    {
      HexConcat(bytes[..k], [bytes[k]]);
      assert bytes[..k + 1] == bytes[..k] + [bytes[k]];
      assert Hex([bytes[k]]) == [Digit(bytes[k] as int / 16), Digit(bytes[k] as int % 16)];
      text[at + 2 * k] := Digit(bytes[k] as int / 16);
      text[at + 2 * k + 1] := Digit(bytes[k] as int % 16);
    }
    assert bytes[..|bytes|] == bytes;
  }

  lemma FormatFromParts(u: Uuid, s: string)
    requires HasDashes(s)
    requires s[0..8] == Hex(u[0..4]) && s[9..13] == Hex(u[4..6]) && s[14..18] == Hex(u[6..8])
    requires s[19..23] == Hex(u[8..10]) && s[24..36] == Hex(u[10..16])
    ensures s == Format(u)
  {
    FormatParts(u);
    hide Format, Hex;
    SameCompact(s, Format(u));
  }

  method FormatUuid(u: Uuid) returns (text: string)
    ensures text == Format(u)
  {
    hide Hex, Format;
    var b := new char[36];
    EncodeInto(b, 0, u[0..4]);
    b[8] := '-';
    EncodeInto(b, 9, u[4..6]);
    b[13] := '-';
    EncodeInto(b, 14, u[6..8]);
    b[18] := '-';
    EncodeInto(b, 19, u[8..10]);
    b[23] := '-';
    EncodeInto(b, 24, u[10..16]);
    text := b[..];
    assert text[0..8] == b[0..8] && text[9..13] == b[9..13] && text[14..18] == b[14..18] && text[19..23] == b[19..23];
    FormatFromParts(u, text);
  }

  lemma {:induction false} UnhexConcat(a: string, b: string)
    requires |a| % 2 == 0
    ensures Unhex(a + b)
            == if Unhex(a) == None || Unhex(b) == None then None else Some(Unhex(a).value + Unhex(b).value)
  {
    hide DigitValue;
    if a == "" {
      assert a + b == b && (Unhex(b).Some? ==> [] + Unhex(b).value == Unhex(b).value);
    } else {
      UnhexConcat(a[2..], b);
      assert (a + b)[2..] == a[2..] + b && (a + b)[0] == a[0] && (a + b)[1] == a[1];
      if Unhex(a).Some? && Unhex(b).Some? {
        var first := [Unhex(a).value[0]];
        assert first + (Unhex(a[2..]).value + Unhex(b).value) == (first + Unhex(a[2..]).value) + Unhex(b).value;
      }
    }
  }

  lemma Cuts(s: string, k: nat)
    requires k + 2 <= |s|
    ensures s[..k + 2] == s[..k] + s[k..k + 2] && s == s[..k + 2] + s[k + 2..]
  {
  }

  /** Fills the buffer from digits; stops at the first pair that is none. */
  method DecodeInto(u: array<byte>, text: string) returns (ok: bool)
    requires |text| == 2 * u.Length
    modifies u
    ensures ok <==> Unhex(text).Some?
    ensures ok ==> u[..] == Unhex(text).value
  {
    for k := 0 to u.Length
      invariant Unhex(text[..2 * k]) == Some(u[..k])
    {
      var pair := text[2 * k..2 * k + 2];
      var high, low := DigitValue(text[2 * k]), DigitValue(text[2 * k + 1]);
      UnhexConcat(text[..2 * k], pair);
      UnhexConcat(text[..2 * k] + pair, text[2 * k + 2..]);
      Cuts(text, 2 * k);
      assert pair[2..] == "";
      if high == None || low == None {
        return false;
      }
      u[k] := (16 * high.value + low.value) as byte;
      assert u[..k + 1] == u[..k] + [u[k]] && Unhex(pair) == Some([u[k]] + []);
      assert [u[k]] + [] == [u[k]];
    }
    assert text[..2 * u.Length] == text && u[..u.Length] == u[..];
    return true;
  }

  method ReadUuid(s: string) returns (u: Option<seq<byte>>)
    ensures u == ParseUuid(s)
  {
    if |s| != 36 || s[8] != '-' || s[13] != '-' || s[18] != '-' || s[23] != '-' {
      return None;
    }
    var compact := s[0..8] + (s[9..13] + (s[14..18] + (s[19..23] + s[24..36])));
    var bytes := new byte[16];
    var ok := DecodeInto(bytes, compact);
    if !ok {
      return None;
    }
    return Some(bytes[..]);
  }

  /** The stamp byte by byte. */
  lemma StampBytes(ms: nat, random: Uuid, bytes: seq<byte>)
    requires |bytes| == 16
    requires bytes[0] == ByteAt(ms, 5) && bytes[1] == ByteAt(ms, 4) && bytes[2] == ByteAt(ms, 3)
    requires bytes[3] == ByteAt(ms, 2) && bytes[4] == ByteAt(ms, 1) && bytes[5] == ByteAt(ms, 0)
    requires bytes[6] == (0x70 + random[6] as int % 16) as byte && bytes[8] == (0x80 + random[8] as int % 64) as byte
    requires bytes[7] == random[7] && forall k :: 9 <= k < 16 ==> bytes[k] == random[k]
    ensures bytes == Stamp(ms, random)
  {
    hide ByteAt;
    assert bytes[9..] == random[9..];
    assert bytes[..9] == [ByteAt(ms, 5), ByteAt(ms, 4), ByteAt(ms, 3), ByteAt(ms, 2), ByteAt(ms, 1), ByteAt(ms, 0)]
                         + [(0x70 + random[6] as int % 16) as byte, random[7], (0x80 + random[8] as int % 64) as byte];
    assert bytes == bytes[..9] + bytes[9..];
  }

  method NewV7(ms: nat, random: Uuid) returns (u: array<byte>)
    ensures fresh(u) && u.Length == 16 && u[..] == Stamp(ms, random)
  {
    hide ByteAt, Stamp;
    u := new byte[16](i requires 0 <= i < 16 => random[i]);
    u[0] := ByteAt(ms, 5);
    u[1] := ByteAt(ms, 4);
    u[2] := ByteAt(ms, 3);
    u[3] := ByteAt(ms, 2);
    u[4] := ByteAt(ms, 1);
    u[5] := ByteAt(ms, 0);
    u[6] := (0x70 + u[6] as int % 16) as byte;
    u[8] := (0x80 + u[8] as int % 64) as byte;
    StampBytes(ms, random, u[..]);
  }

  /** An identifier of a known kind, which is valid for that kind. */
  method New(kind: string, ms: nat, random: Uuid) returns (id: Option<string>)
    ensures id == if kind in KINDS then Some(IdOf(kind, Stamp(ms, random))) else None
    ensures id.Some? ==> Validate(kind, id.value) == None
  {
    if kind !in KINDS {
      return None;
    }
    var u := NewV7(ms, random);
    var text := FormatUuid(u[..]);
    GeneratedIsValid(kind, ms, random, kind);
    return Some(kind + ("-" + text));
  }

  // ----- The Java twin: bytes are signed -----

  newtype signed = x: int | -128 <= x < 128

  /** The low eight bits of a number as a Java byte. */
  function Narrow(x: int): signed { ((x + 128) % 256 - 128) as signed }

  function Unsigned(b: signed): byte { (b as int % 256) as byte }

  /** The nibble an arithmetic shift and a mask leave is that of the unsigned byte. */
  lemma SignedNibbles(b: signed)
    ensures b as int / 16 % 16 == Unsigned(b) as int / 16 && b as int % 16 == Unsigned(b) as int % 16
  {
  }

  function AllUnsigned(bytes: seq<signed>): seq<byte> {
    seq(|bytes|, i requires 0 <= i < |bytes| => Unsigned(bytes[i]))
  }

  method JavaHex(bytes: seq<signed>) returns (text: string)
    ensures text == Hex(AllUnsigned(bytes))
  {
    text := "";
    for k := 0 to |bytes|
      invariant text == Hex(AllUnsigned(bytes[..k]))
    {
      SignedNibbles(bytes[k]);
      HexConcat(AllUnsigned(bytes[..k]), [Unsigned(bytes[k])]);
      assert AllUnsigned(bytes[..k + 1]) == AllUnsigned(bytes[..k]) + [Unsigned(bytes[k])];
      text := text + [Digit(bytes[k] as int / 16 % 16)];
      text := text + [Digit(bytes[k] as int % 16)];
    }
    assert bytes[..|bytes|] == bytes;
  }

  lemma HexSlices(u: Uuid)
    ensures var h := Hex(u);
            && |h| == 32
            && h[0..8] == Hex(u[0..4]) && h[8..12] == Hex(u[4..6]) && h[12..16] == Hex(u[6..8])
            && h[16..20] == Hex(u[8..10]) && h[20..32] == Hex(u[10..16])
  {
    hide Hex;
    HexOfFive(u[0..4], u[4..6], u[6..8], u[8..10], u[10..16]);
    assert u == u[0..4] + (u[4..6] + (u[6..8] + (u[8..10] + u[10..16])));
  }

  /** Both generators make the same text from the same clock and random bytes. */
  method JavaUuidV7(ms: nat, random: seq<signed>) returns (text: string)
    requires |random| == 16
    ensures text == Format(Stamp(ms, AllUnsigned(random)))
  {
    var bytes := new signed[16](i requires 0 <= i < 16 => random[i]);
    bytes[0] := Narrow(Shifted(ms, 5));
    bytes[1] := Narrow(Shifted(ms, 4));
    bytes[2] := Narrow(Shifted(ms, 3));
    bytes[3] := Narrow(Shifted(ms, 2));
    bytes[4] := Narrow(Shifted(ms, 1));
    bytes[5] := Narrow(ms);
    bytes[6] := Narrow(0x70 + bytes[6] as int % 16);
    bytes[8] := Narrow(0x80 + bytes[8] as int % 64);
    SameStamp(ms, random, bytes[..]);
    var hex := JavaHex(bytes[..]);
    HexSlices(Stamp(ms, AllUnsigned(random)));
    return hex[0..8] + ("-" + (hex[8..12] + ("-" + (hex[12..16] + ("-" + (hex[16..20] + ("-" + hex[20..32])))))));
  }

  lemma NarrowKeepsByte(x: int)
    ensures Unsigned(Narrow(x)) as int == x % 256
  {
    assert Narrow(x) as int % 256 == x % 256;
  }

  lemma NarrowMasks(b: signed)
    ensures Unsigned(Narrow(0x70 + b as int % 16)) == (0x70 + Unsigned(b) as int % 16) as byte
    ensures Unsigned(Narrow(0x80 + b as int % 64)) == (0x80 + Unsigned(b) as int % 64) as byte
  {
    assert Unsigned(b) as int == if b >= 0 then b as int else b as int + 256;
    hide Unsigned, Narrow;
    NarrowKeepsByte(0x70 + b as int % 16);
    NarrowKeepsByte(0x80 + b as int % 64);
    if b >= 0 {
      assert Unsigned(b) as int % 16 == b as int % 16 && Unsigned(b) as int % 64 == b as int % 64;
    } else {
      assert (b as int + 256) % 16 == b as int % 16 && (b as int + 256) % 64 == b as int % 64;
    }
  }

  lemma SameStamp(ms: nat, random: seq<signed>, bytes: seq<signed>)
    requires |random| == 16 == |bytes|
    requires bytes[0] == Narrow(Shifted(ms, 5)) && bytes[1] == Narrow(Shifted(ms, 4)) &&
             bytes[2] == Narrow(Shifted(ms, 3))
    requires bytes[3] == Narrow(Shifted(ms, 2)) && bytes[4] == Narrow(Shifted(ms, 1)) && bytes[5] == Narrow(ms)
    requires bytes[6] == Narrow(0x70 + random[6] as int % 16) && bytes[8] == Narrow(0x80 + random[8] as int % 64)
    requires bytes[7] == random[7] && bytes[9..] == random[9..]
    ensures AllUnsigned(bytes) == Stamp(ms, AllUnsigned(random))
  {
    hide Stamp, Narrow, Unsigned;
    NarrowByte(ms, 5);
    NarrowByte(ms, 4);
    NarrowByte(ms, 3);
    NarrowByte(ms, 2);
    NarrowByte(ms, 1);
    NarrowByte(ms, 0);
    NarrowMasks(random[6]);
    NarrowMasks(random[8]);
    assert forall k :: 9 <= k < 16 ==> bytes[k] == bytes[9..][k - 9] && random[k] == random[9..][k - 9];
    hide ByteAt, Shifted;
    StampBytes(ms, AllUnsigned(random), AllUnsigned(bytes));
  }

  lemma NarrowByte(ms: nat, n: nat)
    ensures Unsigned(Narrow(Shifted(ms, n))) == ByteAt(ms, n) && Shifted(ms, 0) == ms
  {
    NarrowKeepsByte(Shifted(ms, n));
  }
}
