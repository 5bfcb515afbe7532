/** String helpers the routes rely on: Python's `str(int)` for the room name of a
    live session, and `str(uuid.uuid4()).replace('-', '')[:16]` for a new
    invitation key. */
module Text {

  /** The decimal digit character for `d`. */
  function Digit(d: nat): (c: char)
    requires d < 10
  {
    ('0' as int + d) as char
  }

  /** The value of a decimal digit character. */
  function DigitValue(c: char): int
  {
    c as int - '0' as int
  }

  predicate IsDigit(c: char)
  {
    '0' <= c <= '9'
  }

  /** `str(n)` for a non-negative Python int: its decimal digits, most
      significant first, with no leading zero. */
  function Decimal(n: nat): (r: string)
    ensures 1 <= |r|
    ensures forall i :: 0 <= i < |r| ==> IsDigit(r[i])
    ensures |r| > 1 ==> r[0] != '0'
    decreases n
  {
    if n < 10 then [Digit(n)] else Decimal(n / 10) + [Digit(n % 10)]
  }

  /** Reads a string of decimal digits back as a number (`int(s)`). */
  function ParseDecimal(s: string): int
  {
    if s == [] then 0 else ParseDecimal(s[..|s| - 1]) * 10 + DigitValue(s[|s| - 1])
  }

  lemma {:induction false} DecimalRoundTrip(n: nat)
    ensures ParseDecimal(Decimal(n)) == n
    decreases n
  {
    var d := Decimal(n);
    if n >= 10 {
      DecimalRoundTrip(n / 10);
      assert d[..|d| - 1] == Decimal(n / 10);
    }
  }

  /** Two different numbers never print the same. */
  lemma DecimalInjective(a: nat, b: nat)
    requires Decimal(a) == Decimal(b)
    ensures a == b
  {
    DecimalRoundTrip(a);
    DecimalRoundTrip(b);
  }

  /** The Socket.IO room of a user's live session: `f"room_{user_id}"`. */
  function RoomName(userId: nat): string
  {
    "room_" + Decimal(userId)
  }

  /** Distinct users never share a room. */
  lemma RoomNameInjective(a: nat, b: nat)
    requires RoomName(a) == RoomName(b)
    ensures a == b
  {
    assert RoomName(a)[5..] == Decimal(a);
    assert RoomName(b)[5..] == Decimal(b);
    DecimalInjective(a, b);
  }

  predicate IsHexDigit(c: char)
  {
    '0' <= c <= '9' || 'a' <= c <= 'f'
  }

  predicate IsHex(s: string)
  {
    forall i :: 0 <= i < |s| ==> IsHexDigit(s[i])
  }

  /** The text of a UUID as `str(uuid.UUID)` writes it: 32 lower-case hex
      digits in groups of 8-4-4-4-12, separated by dashes. */
  predicate IsUuidText(u: string)
  {
    && |u| == 36
    && u[8] == '-' && u[13] == '-' && u[18] == '-' && u[23] == '-'
    && IsHex(u[..8]) && IsHex(u[9..13]) && IsHex(u[14..18])
    && IsHex(u[19..23]) && IsHex(u[24..])
  }

  /** `s.replace('-', '')`. */
  function RemoveDashes(s: string): (r: string)
    ensures |r| <= |s|
    ensures forall i :: 0 <= i < |r| ==> r[i] != '-'
  {
    if s == [] then []
    else (if s[0] == '-' then [] else [s[0]]) + RemoveDashes(s[1..])
  }

  /** `s[:n]`: Python's slice takes the whole string when it is shorter. */
  function Prefix(s: string, n: nat): string
  {
    if |s| <= n then s else s[..n]
  }

  /** The invitation key made from one UUID. */
  function KeyFromUuid(u: string): (k: string)
    ensures k <= RemoveDashes(u)
    ensures |k| == if |RemoveDashes(u)| < 16 then |RemoveDashes(u)| else 16
    ensures forall i :: 0 <= i < |k| ==> k[i] != '-'
  {
    Prefix(RemoveDashes(u), 16)
  }

  lemma {:induction false} RemoveDashesConcat(a: string, b: string)
    ensures RemoveDashes(a + b) == RemoveDashes(a) + RemoveDashes(b)
    decreases |a|
  {
    if a == [] {
      assert a + b == b;
    } else {
      assert (a + b)[0] == a[0];
      assert (a + b)[1..] == a[1..] + b;
      RemoveDashesConcat(a[1..], b);
    }
  }

  lemma {:induction false} RemoveDashesHex(s: string)
    requires IsHex(s)
    ensures RemoveDashes(s) == s
    decreases |s|
  {
    if s != [] {
      assert IsHexDigit(s[0]);
      RemoveDashesHex(s[1..]);
    }
  }

  lemma DashJoin(a: string, b: string)
    requires IsHex(a)
    ensures RemoveDashes(a + "-" + b) == a + RemoveDashes(b)
  {
    var dash: string := "-";
    assert dash[1..] == [];
    assert RemoveDashes(dash) == [];
    RemoveDashesConcat(a + dash, b);
    RemoveDashesConcat(a, dash);
    RemoveDashesHex(a);
    assert RemoveDashes(a + dash) == a;
  }

  /** A key made from a UUID is its first 16 hex digits. */
  lemma KeyFromUuidShape(u: string)
    requires IsUuidText(u)
    ensures KeyFromUuid(u) == u[..8] + u[9..13] + u[14..18]
    ensures |KeyFromUuid(u)| == 16 && IsHex(KeyFromUuid(u))
  {
    var a, b, c, d, e := u[..8], u[9..13], u[14..18], u[19..23], u[24..];
    var s1, s2, s3 := u[9..], u[14..], u[19..];
    assert s3 == d + "-" + e;
    assert s2 == c + "-" + s3;
    assert s1 == b + "-" + s2;
    assert u == a + "-" + s1;
    RemoveDashesHex(e);
    DashJoin(d, e);
    DashJoin(c, s3);
    DashJoin(b, s2);
    DashJoin(a, s1);
    var r := RemoveDashes(u);
    assert r == a + (b + (c + (d + e)));
    assert r[..16] == a + b + c;
  }
}
