// What the request-body validator decides, stated without chunks: section 4 of RFC 3629 for the bytes, and
// section 7 of RFC 8259 for the surrogate escapes in JSON strings (internal/codexonly/session_affinity.go).

module UnicodeText {
  import opened Bytes

  // ----- UTF-8 -----

  predicate Tail(b: Byte) {
    0x80 <= b <= 0xBF
  }

  /** The UTF8-char production of RFC 3629: how many bytes the character at the front has, 0 if none is there. */
  function CharLength(s: seq<Byte>): (n: nat)
    ensures n <= |s|
  {
    if |s| >= 1 && s[0] <= 0x7F then 1
    else if |s| >= 2 && 0xC2 <= s[0] <= 0xDF && Tail(s[1]) then 2
    else if |s| >= 3 && Tail(s[2]) && (
              || (s[0] == 0xE0 && 0xA0 <= s[1] <= 0xBF)
              || (0xE1 <= s[0] <= 0xEC && Tail(s[1]))
              || (s[0] == 0xED && 0x80 <= s[1] <= 0x9F)
              || (0xEE <= s[0] <= 0xEF && Tail(s[1])))
      then 3
    else if |s| >= 4 && Tail(s[2]) && Tail(s[3]) && (
              || (s[0] == 0xF0 && 0x90 <= s[1] <= 0xBF)
              || (0xF1 <= s[0] <= 0xF3 && Tail(s[1]))
              || (s[0] == 0xF4 && 0x80 <= s[1] <= 0x8F))
      then 4
    else 0
  }

  /** UTF8-octets: the whole input is a sequence of characters. */
  predicate IsUtf8(s: seq<Byte>) {
    |s| == 0 || (CharLength(s) > 0 && IsUtf8(s[CharLength(s)..]))
  }

  /** How many bytes the first byte asks for, in the tables of Go's unicode/utf8; 1 if it is invalid. */
  function Need(b: Byte): (n: nat)
    ensures 1 <= n <= 4
  {
    if 0xC2 <= b <= 0xDF then 2 else if 0xE0 <= b <= 0xEF then 3 else if 0xF0 <= b <= 0xF4 then 4 else 1
  }

  /** The accept range of the second byte. */
  predicate Accepts(first: Byte, second: Byte) {
    (if first == 0xE0 then 0xA0 else if first == 0xF0 then 0x90 else 0x80) <= second <=
      (if first == 0xED then 0x9F else if first == 0xF4 then 0x8F else 0xBF)
  }

  /** utf8.FullRune: more bytes would not change how decoding starts. */
  predicate FullRune(s: seq<Byte>) {
    && |s| > 0
    && (|s| >= Need(s[0]) || (|s| > 1 && !Accepts(s[0], s[1])) || (|s| > 2 && !Tail(s[2])))
  }

  /** utf8.DecodeRune: the size of the rune, 1 for an error; `ok` is false for exactly those. */
  function DecodeRune(s: seq<Byte>): (r: (nat, bool))
    requires |s| > 0
    ensures 1 <= r.0 <= |s|
  {
    if s[0] < 0x80 then (1, true)
    else if Need(s[0]) == 1 || |s| < Need(s[0]) || !Accepts(s[0], s[1]) then (1, false)
    else if Need(s[0]) == 2 then (2, true)
    else if !Tail(s[2]) then (1, false)
    else if Need(s[0]) == 3 then (3, true)
    else if !Tail(s[3]) then (1, false)
    else (4, true)
  }

  lemma DecodeIsCharLength(s: seq<Byte>)
    requires |s| > 0
    ensures DecodeRune(s) == if CharLength(s) > 0 then (CharLength(s), true) else (1, false)
  {
  }

  /** Decoding from the front while there is a full rune: was there an error, and what is left. */
  function Scan(s: seq<Byte>): (bool, seq<Byte>) {
    if !FullRune(s) then (false, s)
    else
      var (size, ok) := DecodeRune(s);
      var (bad, rest) := Scan(s[size..]);
      (bad || !ok, rest)
  }

  /** Nothing but whole, correct characters. */
  lemma {:induction false} ScanDecidesUtf8(s: seq<Byte>)
    ensures !Scan(s).0 && |Scan(s).1| == 0 <==> IsUtf8(s)
  {
    if |s| > 0 {
      DecodeIsCharLength(s);
      if FullRune(s) {
        ScanDecidesUtf8(s[DecodeRune(s).0..]);
      }
    }
  }

  /** The front of a longer input is decoded the same way. */
  lemma FullStaysFull(s: seq<Byte>, more: seq<Byte>)
    requires FullRune(s)
    ensures FullRune(s + more) && DecodeRune(s + more) == DecodeRune(s)
  {
  }

  /** Going on with what was left is like scanning everything at once. */
  lemma {:induction false} ScanAppend(s: seq<Byte>, more: seq<Byte>)
    ensures Scan(s).0 ==> Scan(s + more).0
    ensures !Scan(s).0 ==> Scan(s + more) == Scan(Scan(s).1 + more)
  {
    if FullRune(s) {
      var size := DecodeRune(s).0;
      FullStaysFull(s, more);
      ScanAppend(s[size..], more);
      assert (s + more)[size..] == s[size..] + more;
    }
  }

  lemma {:induction false} ScanLeavesPart(s: seq<Byte>)
    ensures !FullRune(Scan(s).1) && |Scan(s).1| < 4
  {
    if FullRune(s) {
      ScanLeavesPart(s[DecodeRune(s).0..]);
    }
  }

  // ----- surrogate escapes -----

  const QUOTE: Byte := 0x22
  const BACKSLASH: Byte := 0x5C
  const LETTER_U: Byte := 0x75

  predicate IsHex(b: Byte) {
    0x30 <= b <= 0x39 || 0x41 <= b <= 0x46 || 0x61 <= b <= 0x66
  }

  function HexDigit(b: Byte): (d: nat)
    requires IsHex(b)
    ensures d < 16
  {
    if b <= 0x39 then b - 0x30 else if b <= 0x46 then b - 0x41 + 10 else b - 0x61 + 10
  }

  /**
   * The text as a JSON reader takes it apart: bytes outside strings, and in strings plain characters,
   * escapes, and \u escapes with their code. Broken is a \u without four hex digits; Cut a backslash at
   * the very end.
   */
  datatype Unit = Outside | Close | Plain | Escape | Code(value: nat) | Broken | Cut

  function CodeAt(s: seq<Byte>): nat
    requires |s| >= 4 && IsHex(s[0]) && IsHex(s[1]) && IsHex(s[2]) && IsHex(s[3])
  {
    4096 * HexDigit(s[0]) + 256 * HexDigit(s[1]) + 16 * HexDigit(s[2]) + HexDigit(s[3])
  }

  predicate FourDigits(s: seq<Byte>) {
    |s| >= 4 && IsHex(s[0]) && IsHex(s[1]) && IsHex(s[2]) && IsHex(s[3])
  }

  function Units(s: seq<Byte>, inside: bool): seq<Unit> {
    if |s| == 0 then []
    else if !inside then [Outside] + Units(s[1..], s[0] == QUOTE)
    else if s[0] == QUOTE then [Close] + Units(s[1..], false)
    else if s[0] != BACKSLASH then [Plain] + Units(s[1..], true)
    else if |s| == 1 then [Cut]
    else if s[1] != LETTER_U then [Escape] + Units(s[2..], true)
    else if FourDigits(s[2..]) then [Code(CodeAt(s[2..]))] + Units(s[6..], true)
    else [Broken]
  }

  predicate High(u: Unit) {
    u.Code? && 0xD800 <= u.value <= 0xDBFF
  }

  predicate Low(u: Unit) {
    u.Code? && 0xDC00 <= u.value <= 0xDFFF
  }

  /** Every \u escape is complete, and surrogates come in pairs, the high one first. */
  ghost predicate WellPaired(us: seq<Unit>) {
    && Broken !in us
    && forall i :: 0 <= i < |us| ==> PairedAt(us, i)
  }

  predicate PairedAt(us: seq<Unit>, i: nat)
    requires i < |us|
  {
    && (High(us[i]) ==> i + 1 < |us| && Low(us[i + 1]))
    && (Low(us[i]) ==> i > 0 && High(us[i - 1]))
  }

  /** The same, read from left to right; `high` says that a low surrogate is due. */
  predicate PairedFrom(high: bool, us: seq<Unit>)
    decreases |us|
  {
    if |us| == 0 then !high
    else
      && !us[0].Broken? && high == Low(us[0])
      && PairedFrom(High(us[0]), us[1..])
  }

  lemma {:induction false} PairedFromIsWellPaired(us: seq<Unit>, high: bool)
    ensures PairedFrom(high, us) <==>
      && Broken !in us
      && (if high then |us| > 0 && Low(us[0]) else |us| > 0 ==> !Low(us[0]))
      && FollowedUp(us)
    decreases |us|
  {
    if |us| > 0 {
      PairedFromIsWellPaired(us[1..], High(us[0]));
      FollowedUpStep(us);
      assert us == [us[0]] + us[1..];
    }
  }

  ghost predicate FollowedUp(us: seq<Unit>) {
    forall i :: 0 <= i < |us| ==> PairedAtFrom(us, i)
  }

  lemma FollowedUpStep(us: seq<Unit>)
    requires |us| > 0
    ensures FollowedUp(us) <==> PairedAtFrom(us, 0) && FollowedUp(us[1..])
  {
    var rest := us[1..];
    assert forall i: nat {:trigger PairedAtFrom(rest, i)} :: i < |rest| ==> PairedAtFrom(rest, i) == PairedAtFrom(us, i + 1);
    if FollowedUp(us) {
      forall i | 0 <= i < |rest|
        ensures PairedAtFrom(rest, i)
      {
        assert PairedAtFrom(us, i + 1);
      }
    }
    if PairedAtFrom(us, 0) && FollowedUp(rest) {
      forall i | 0 <= i < |us|
        ensures PairedAtFrom(us, i)
      {
        assert i > 0 ==> PairedAtFrom(rest, i - 1);
      }
    }
  }

  /** What follows unit `i` is a low surrogate exactly if unit `i` is a high one. */
  predicate PairedAtFrom(us: seq<Unit>, i: nat)
    requires i < |us|
  {
    (i + 1 < |us| ==> High(us[i]) == Low(us[i + 1])) && (i + 1 == |us| ==> !High(us[i]))
  }

  lemma PairedFromStart(us: seq<Unit>)
    ensures PairedFrom(false, us) <==> WellPaired(us)
  {
    PairedFromIsWellPaired(us, false);
    if WellPaired(us) {
      forall i | 0 <= i < |us|
        ensures PairedAtFrom(us, i)
      {
        assert PairedAt(us, i);
        assert i + 1 < |us| ==> PairedAt(us, i + 1);
      }
      assert |us| > 0 ==> PairedAt(us, 0);
    }
    if PairedFrom(false, us) {
      forall i | 0 <= i < |us|
        ensures PairedAt(us, i)
      {
        assert PairedAtFrom(us, i);
        assert i > 0 ==> PairedAtFrom(us, i - 1);
      }
    }
  }

  // ----- strings written down and taken apart -----

  datatype AnyPiece = Char(b: Byte) | Escaped(b: Byte) | CodeUnit(value: nat, upper: bool)

  predicate IsPiece(p: AnyPiece) {
    match p
    case Char(b) => b != 0x22 && b != 0x5C
    case Escaped(b) => b != 0x75
    case CodeUnit(value, _) => value < 0x10000
  }

  /** What a JSON string is made of: characters, escaped characters, and \u escapes of 16-bit codes in either case. */
  type Piece = p: AnyPiece | IsPiece(p) witness Char(0)

  function HexChar(d: nat, upper: bool): (b: Byte)
    requires d < 16
    ensures IsHex(b) && HexDigit(b) == d
  {
    if d < 10 then 0x30 + d else if upper then 0x41 + d - 10 else 0x61 + d - 10
  }

  function FourHex(value: nat, upper: bool): (s: seq<Byte>)
    requires value < 0x10000
    ensures FourDigits(s) && |s| == 4 && CodeAt(s) == value
  {
    var high, low := value / 0x100, value % 0x100;
    assert value == 0x100 * high + low && high < 0x100;
    assert high == 16 * (high / 16) + high % 16 && low == 16 * (low / 16) + low % 16;
    [HexChar(high / 16, upper), HexChar(high % 16, upper), HexChar(low / 16, upper), HexChar(low % 16, upper)]
  }

  function PieceText(p: Piece): seq<Byte> {
    match p
    case Char(b) => [b]
    case Escaped(b) => [0x5C, b]
    case CodeUnit(value, upper) => [0x5C, 0x75] + FourHex(value, upper)
  }

  function PiecesText(ps: seq<Piece>): seq<Byte> {
    if |ps| == 0 then [] else PieceText(ps[0]) + PiecesText(ps[1..])
  }

  function UnitOf(p: Piece): Unit {
    match p
    case Char(_) => Plain
    case Escaped(_) => Escape
    case CodeUnit(value, _) => Code(value)
  }

  function UnitsOf(ps: seq<Piece>): (us: seq<Unit>)
    ensures |us| == |ps|
  {
    if |ps| == 0 then [] else [UnitOf(ps[0])] + UnitsOf(ps[1..])
  }

  lemma {:induction false} UnitsOfAt(ps: seq<Piece>, i: nat)
    requires i < |ps|
    ensures UnitsOf(ps)[i] == UnitOf(ps[i])
  {
    if i > 0 {
      UnitsOfAt(ps[1..], i - 1);
    }
  }

  lemma PieceIsUnit(p: Piece, rest: seq<Byte>)
    ensures Units(PieceText(p) + rest, true) == [UnitOf(p)] + Units(rest, true)
  {
    var s := PieceText(p) + rest;
    match p
    case Char(_) => assert s[1..] == rest;
    case Escaped(_) => assert s[2..] == rest;
    case CodeUnit(value, upper) =>
      assert s[2..] == FourHex(value, upper) + rest && s[6..] == rest;
      assert FourDigits(s[2..]) && CodeAt(s[2..]) == value;
  }

  /** A string between quotes is taken apart into its pieces, and whatever follows is outside. */
  lemma {:induction false} StringIsPieces(ps: seq<Piece>, rest: seq<Byte>)
    ensures Units(PiecesText(ps) + [0x22] + rest, true) ==
      UnitsOf(ps) + [Close] + Units(rest, false)
    decreases |ps|
  {
    if |ps| == 0 {
      QuoteCloses(rest);
      assert PiecesText(ps) + [0x22] + rest == [0x22] + rest && UnitsOf(ps) + [Close] == [Close];
    } else {
      var tail := PiecesText(ps[1..]) + [0x22] + rest;
      StringIsPieces(ps[1..], rest);
      FirstPiece(ps, rest);
      PieceIsUnit(ps[0], tail);
      assert [UnitOf(ps[0])] + (UnitsOf(ps[1..]) + [Close] + Units(rest, false)) ==
        UnitsOf(ps) + [Close] + Units(rest, false);
    }
  }

  lemma QuoteCloses(rest: seq<Byte>)
    ensures Units([0x22] + rest, true) == [Close] + Units(rest, false)
  {
    assert ([0x22] + rest)[1..] == rest;
  }

  lemma FirstPiece(ps: seq<Piece>, rest: seq<Byte>)
    requires |ps| > 0
    ensures PiecesText(ps) + [0x22] + rest == PieceText(ps[0]) + (PiecesText(ps[1..]) + [0x22] + rest)
  {
  }

  predicate IsHighCode(p: Piece) {
    p.CodeUnit? && 0xD800 <= p.value <= 0xDBFF
  }

  predicate IsLowCode(p: Piece) {
    p.CodeUnit? && 0xDC00 <= p.value <= 0xDFFF
  }

  /** Surrogates stand next to each other in the string, the high one first. */
  predicate SurrogatesPaired(ps: seq<Piece>) {
    forall i :: 0 <= i < |ps| ==> SurrogatePairedAt(ps, i)
  }

  predicate SurrogatePairedAt(ps: seq<Piece>, i: nat)
    requires i < |ps|
  {
    && (IsHighCode(ps[i]) ==> i + 1 < |ps| && IsLowCode(ps[i + 1]))
    && (IsLowCode(ps[i]) ==> i > 0 && IsHighCode(ps[i - 1]))
  }

  lemma UnitIsPiece(ps: seq<Piece>, us: seq<Unit>, i: nat)
    requires us == [Outside] + UnitsOf(ps) + [Close] && i < |us|
    ensures High(us[i]) <==> 0 < i <= |ps| && IsHighCode(ps[i - 1])
    ensures Low(us[i]) <==> 0 < i <= |ps| && IsLowCode(ps[i - 1])
  {
    if 0 < i <= |ps| {
      UnitsOfAt(ps, i - 1);
    }
  }

  lemma PairedAtIff(ps: seq<Piece>, us: seq<Unit>, i: nat)
    requires us == [Outside] + UnitsOf(ps) + [Close] && i < |us|
    ensures PairedAt(us, i) <==> (0 < i <= |ps| ==> SurrogatePairedAt(ps, i - 1))
  {
    UnitIsPiece(ps, us, i);
    if i > 0 {
      UnitIsPiece(ps, us, i - 1);
    }
    if i + 1 < |us| {
      UnitIsPiece(ps, us, i + 1);
    }
  }

  lemma {:induction false} NoneIsBroken(ps: seq<Piece>)
    ensures Broken !in UnitsOf(ps)
  {
    if |ps| > 0 {
      NoneIsBroken(ps[1..]);
    }
  }

  /** A JSON text that is one string is well paired exactly when its surrogates are. */
  lemma StringIsPairedIff(ps: seq<Piece>)
    ensures WellPaired(Units([0x22] + PiecesText(ps) + [0x22], false)) <==> SurrogatesPaired(ps)
  {
    StringIsTakenApart(ps);
    var us := [Outside] + UnitsOf(ps) + [Close];
    NoneIsBroken(ps);
    forall i | 0 <= i < |us|
      ensures PairedAt(us, i) <==> (0 < i <= |ps| ==> SurrogatePairedAt(ps, i - 1))
    {
      PairedAtIff(ps, us, i);
    }
    if WellPaired(us) {
      forall i | 0 <= i < |ps|
        ensures SurrogatePairedAt(ps, i)
      {
        assert PairedAt(us, i + 1);
      }
    }
  }

  lemma StringIsTakenApart(ps: seq<Piece>)
    ensures Units([0x22] + PiecesText(ps) + [0x22], false) == [Outside] + UnitsOf(ps) + [Close]
  {
    var none: seq<Byte> := [];
    var text := [0x22] + PiecesText(ps) + [0x22];
    assert text[1..] == PiecesText(ps) + [0x22] + none;
    StringIsPieces(ps, none);
    assert UnitsOf(ps) + [Close] + Units(none, false) == UnitsOf(ps) + [Close];
  }
}
