// The validator that sees a request body chunk by chunk while it is being parsed
// (sessionAffinityJSONUnicodeValidator, internal/codexonly/session_affinity.go).

module UnicodeValidator {
  import opened Bytes
  import opened UnicodeText

  // ----- the escapes, byte by byte -----

  datatype Machine = Machine(inString: bool, escaped: bool, digits: nat, value: nat, pendingHigh: bool, invalid: bool)

  /** Between two units: in a string or not, and whether a low surrogate is due. */
  function At(inside: bool, high: bool): Machine {
    Machine(inside, false, 0, 0, high, false)
  }

  /** finishUnicodeEscape. */
  function WithCode(m: Machine, code: nat): Machine {
    var u := Code(code);
    if High(u) then m.(digits := 0, value := 0, pendingHigh := true, invalid := m.invalid || m.pendingHigh)
    else if Low(u) then m.(digits := 0, value := 0, pendingHigh := false, invalid := m.invalid || !m.pendingHigh)
    else m.(digits := 0, value := 0, pendingHigh := false, invalid := m.invalid || m.pendingHigh)
  }

  /** validateJSONStringByte. */
  function Step(m: Machine, b: Byte): Machine {
    if !m.inString then m.(inString := b == QUOTE)
    else if m.digits > 0 then
      if !IsHex(b) then m.(digits := 0, value := 0, invalid := true)
      else if m.digits == 1 then WithCode(m, (m.value * 16 + HexDigit(b)) % 0x10000)
      else m.(digits := m.digits - 1, value := (m.value * 16 + HexDigit(b)) % 0x10000)
    else if m.escaped then
      if b == LETTER_U then m.(escaped := false, digits := 4, value := 0)
      else m.(escaped := false, pendingHigh := false, invalid := m.invalid || m.pendingHigh)
    else if b == BACKSLASH then m.(escaped := true)
    else m.(inString := b != QUOTE, pendingHigh := false, invalid := m.invalid || m.pendingHigh)
  }

  function Run(m: Machine, s: seq<Byte>): Machine
    decreases |s|
  {
    if |s| == 0 then m else Run(Step(m, s[0]), s[1..])
  }

  predicate Accepts(m: Machine) {
    !m.invalid && m.digits == 0 && !m.pendingHigh
  }

  lemma {:induction false} RunAppend(m: Machine, s: seq<Byte>, more: seq<Byte>)
    ensures Run(m, s + more) == Run(Run(m, s), more)
    decreases |s|
  {
    if |s| == 0 {
      assert s + more == more;
    } else {
      assert (s + more)[1..] == s[1..] + more;
      RunAppend(Step(m, s[0]), s[1..], more);
    }
  }

  lemma {:induction false} InvalidStays(m: Machine, s: seq<Byte>)
    requires m.invalid
    ensures Run(m, s).invalid
    decreases |s|
  {
    if |s| > 0 {
      InvalidStays(Step(m, s[0]), s[1..]);
    }
  }

  /** A \u escape that is cut short or has a wrong digit is never accepted. */
  lemma {:induction false} BrokenIsRejected(m: Machine, s: seq<Byte>)
    requires m.inString && 0 < m.digits <= 4
    requires |s| < m.digits || exists i :: 0 <= i < m.digits && !IsHex(s[i])
    ensures !Accepts(Run(m, s))
    decreases |s|
  {
    if |s| > 0 {
      if IsHex(s[0]) {
        if |s| >= m.digits {
          var i :| 0 <= i < m.digits && !IsHex(s[i]);
          assert s[1..][i - 1] == s[i];
        }
        BrokenIsRejected(Step(m, s[0]), s[1..]);
      } else {
        InvalidStays(Step(m, s[0]), s[1..]);
      }
    }
  }

  lemma OneStep(m: Machine, s: seq<Byte>)
    requires |s| > 0
    ensures Run(m, s) == Run(Step(m, s[0]), s[1..])
  {
  }

  lemma DigitStep(m: Machine, s: seq<Byte>)
    requires m.inString && 1 < m.digits && m.value < 0x1000 && |s| > 0 && IsHex(s[0])
    ensures Run(m, s) == Run(m.(digits := m.digits - 1, value := m.value * 16 + HexDigit(s[0])), s[1..])
  {
    OneStep(m, s);
  }

  lemma LastDigitStep(m: Machine, s: seq<Byte>)
    requires m.inString && m.digits == 1 && m.value < 0x1000 && |s| > 0 && IsHex(s[0])
    ensures Run(m, s) == Run(WithCode(m, m.value * 16 + HexDigit(s[0])), s[1..])
  {
    OneStep(m, s);
  }

  /** The value of two hex digits. */
  function PairAt(s: seq<Byte>): (v: nat)
    requires |s| > 1 && IsHex(s[0]) && IsHex(s[1])
    ensures v < 0x100
  {
    HexDigit(s[0]) * 16 + HexDigit(s[1])
  }

  lemma FirstPair(m: Machine, s: seq<Byte>)
    requires m.inString && m.digits == 4 && m.value == 0 && |s| > 1 && IsHex(s[0]) && IsHex(s[1])
    ensures Run(m, s) == Run(m.(digits := 2, value := PairAt(s)), s[2..])
  {
    DigitStep(m, s);
    assert s[1..][0] == s[1] && s[1..][1..] == s[2..];
    DigitStep(m.(digits := 3, value := HexDigit(s[0])), s[1..]);
  }

  lemma SecondPair(m: Machine, s: seq<Byte>)
    requires m.inString && m.digits == 2 && m.value < 0x100 && |s| > 1 && IsHex(s[0]) && IsHex(s[1])
    ensures Run(m, s) == Run(WithCode(m, m.value * 0x100 + PairAt(s)), s[2..])
  {
    DigitStep(m, s);
    assert s[1..][0] == s[1] && s[1..][1..] == s[2..];
    var value := m.value * 16 + HexDigit(s[0]);
    LastDigitStep(m.(digits := 1, value := value), s[1..]);
    assert value * 16 + HexDigit(s[1]) == m.value * 0x100 + PairAt(s);
  }

  lemma CodeIsPairs(s: seq<Byte>)
    requires FourDigits(s)
    ensures CodeAt(s) == PairAt(s) * 0x100 + PairAt(s[2..])
  {
    assert s[2..][0] == s[2] && s[2..][1] == s[3];
  }

  /** Four hex digits make the code. */
  lemma FourDigitsMakeCode(m: Machine, s: seq<Byte>)
    requires m.inString && m.digits == 4 && m.value == 0 && FourDigits(s)
    ensures Run(m, s) == Run(WithCode(m, CodeAt(s)), s[4..])
  {
    var high := PairAt(s);
    var half := m.(digits := 2, value := high);
    FirstPair(m, s);
    assert s[2..][0] == s[2] && s[2..][1] == s[3] && s[2..][2..] == s[4..];
    SecondPair(half, s[2..]);
    CodeIsPairs(s);
    assert WithCode(half, CodeAt(s)) == WithCode(m, CodeAt(s));
  }

  /** From any place between two units on, the machine accepts what is paired from there. */
  lemma {:induction false} MachineDecides(s: seq<Byte>, inside: bool, high: bool)
    requires high ==> inside
    ensures Accepts(Run(At(inside, high), s)) <==> PairedFrom(high, Units(s, inside))
    decreases |s|
  {
    var m := At(inside, high);
    if |s| == 0 {
    } else if !inside {
      MachineDecides(s[1..], s[0] == QUOTE, false);
      UnitGoesOn(Outside, s[1..], s[0] == QUOTE, false);
    } else if s[0] != BACKSLASH {
      if high {
        InvalidStays(Step(m, s[0]), s[1..]);
      } else {
        MachineDecides(s[1..], s[0] != QUOTE, false);
      }
      UnitGoesOn(if s[0] == QUOTE then Close else Plain, s[1..], s[0] != QUOTE, high);
    } else {
      OneStep(m, s);
      EscapeDecides(s, high);
    }
  }

  lemma UnitGoesOn(u: Unit, rest: seq<Byte>, inside: bool, high: bool)
    requires !u.Broken?
    ensures PairedFrom(high, [u] + Units(rest, inside)) <==>
      high == Low(u) && PairedFrom(High(u), Units(rest, inside))
  {
    assert ([u] + Units(rest, inside))[1..] == Units(rest, inside);
  }

  lemma {:induction false} EscapeDecides(s: seq<Byte>, high: bool)
    requires |s| > 0 && s[0] == BACKSLASH
    ensures Accepts(Run(At(true, high).(escaped := true), s[1..])) <==> PairedFrom(high, Units(s, true))
    decreases |s|, 1
  {
    var e := At(true, high).(escaped := true);
    if |s| == 1 {
      assert Units(s, true) == [Cut] && [Cut][1..] == Units(s[1..], true);
    } else {
      OneStep(e, s[1..]);
      assert s[1..][1..] == s[2..];
      if s[1] != LETTER_U {
        if high {
          InvalidStays(Step(e, s[1]), s[2..]);
        } else {
          MachineDecides(s[2..], true, false);
        }
        UnitGoesOn(Escape, s[2..], true, high);
      } else if FourDigits(s[2..]) {
        CodeDecides(s, high);
      } else {
        assert Units(s, true) == [Broken];
        assert s[2..] == [] || s[2..][0] == s[2];
        BrokenIsRejected(Step(e, s[1]), s[2..]);
      }
    }
  }

  lemma {:induction false} CodeDecides(s: seq<Byte>, high: bool)
    requires |s| > 1 && s[0] == BACKSLASH && s[1] == LETTER_U && FourDigits(s[2..])
    ensures
      Accepts(Run(At(true, high).(digits := 4), s[2..])) <==> PairedFrom(high, Units(s, true))
    decreases |s|, 0
  {
    var u := Code(CodeAt(s[2..]));
    var m := At(true, high).(digits := 4);
    FourDigitsMakeCode(m, s[2..]);
    assert s[2..][4..] == s[6..];
    if high == Low(u) {
      MachineDecides(s[6..], true, High(u));
    } else {
      InvalidStays(WithCode(m, u.value), s[6..]);
    }
    UnitGoesOn(u, s[6..], true, high);
  }

  /** The byte-by-byte verdict is the one on the whole text. */
  lemma EscapesAreDecided(s: seq<Byte>)
    ensures Accepts(Run(At(false, false), s)) <==> WellPaired(Units(s, false))
  {
    MachineDecides(s, false, false);
    PairedFromStart(Units(s, false));
  }

  // ----- the validator -----

  /** A full rune that was not full a byte ago and is no error is used up entirely. */
  lemma JustFull(s: seq<Byte>)
    requires FullRune(s) && (|s| == 1 || !FullRune(s[..|s| - 1]))
    ensures DecodeRune(s).1 ==> DecodeRune(s).0 == |s|
  {
  }

  lemma PartIsShort(s: seq<Byte>)
    requires !FullRune(s)
    ensures |s| < 4
  {
  }

  /** An error found elsewhere does not change what a byte does. */
  lemma StepDespite(m: Machine, bad: bool, b: Byte)
    ensures Step(m.(invalid := bad || m.invalid), b) == Step(m, b).(invalid := bad || Step(m, b).invalid)
  {
  }

  class JsonUnicodeValidator {
    const pending: array<Byte>
    var pendingLen: nat
    var invalidEncoding: bool
    var inString: bool
    var escaped: bool
    var digits: nat
    var value: nat
    var pendingHigh: bool

    constructor ()
      ensures Read([]) && fresh(pending)
    {
      pending := new Byte[4];
      pendingLen, invalidEncoding := 0, false;
      inString, escaped, digits, value, pendingHigh := false, false, 0, 0, false;
    }

    /** The bytes of a character that is not complete yet; once something was wrong they no longer matter. */
    ghost predicate Holds(bad: bool, rest: seq<Byte>)
      reads this, pending
    {
      && pending.Length == 4 && pendingLen < 4 && !FullRune(pending[..pendingLen])
      && (!bad ==> pending[..pendingLen] == rest)
    }

    ghost predicate Agrees(m: Machine)
      reads this
    {
      inString == m.inString && escaped == m.escaped && digits == m.digits && value == m.value
      && pendingHigh == m.pendingHigh
    }

    /** `s` is everything written so far. */
    ghost predicate Read(s: seq<Byte>)
      reads this, pending
    {
      && Holds(Scan(s).0, Scan(s).1)
      && Agrees(Run(At(false, false), s))
      && invalidEncoding == (Scan(s).0 || Run(At(false, false), s).invalid)
    }

    method Write(p: seq<Byte>, ghost s: seq<Byte>)
      requires Read(s)
      modifies this, pending
      ensures Read(s + p)
    {
      if |p| == 0 {
        assert s + p == s;
        return;
      }
      ghost var m := Run(At(false, false), s);
      ScanAppend(s, p);
      ValidateUtf8(p, s);
      RunAppend(At(false, false), s, p);
      ValidateEscapes(p, m, Scan(s + p).0);
    }

    /** Takes bytes until the pending character is complete, or there are no more. */
    method FillPending(p: seq<Byte>) returns (rest: seq<Byte>)
      requires pending.Length == 4 && 0 < pendingLen < 4 && !FullRune(pending[..pendingLen])
      modifies pending, this`pendingLen
      ensures 0 < pendingLen <= 4 && pending[..pendingLen] + rest == old(pending[..pendingLen]) + p
      ensures !FullRune(pending[..pendingLen]) ==> |rest| == 0
      ensures FullRune(pending[..pendingLen]) ==> !FullRune(pending[..pendingLen - 1]) && pendingLen > 1
    {
      rest := p;
      ghost var all := pending[..pendingLen] + p;
      while |rest| > 0 && !FullRune(pending[..pendingLen])
        invariant 0 < pendingLen <= 4 && pending[..pendingLen] + rest == all
        invariant FullRune(pending[..pendingLen]) ==> pendingLen > 1 && !FullRune(pending[..pendingLen - 1])
        decreases |rest|
      {
        PartIsShort(pending[..pendingLen]);
        ghost var before := pending[..pendingLen];
        pending[pendingLen] := rest[0];
        pendingLen := pendingLen + 1;
        assert pending[..pendingLen] == before + [rest[0]];
        rest := rest[1..];
      }
    }

    method ValidateUtf8(p: seq<Byte>, ghost s: seq<Byte>)
      requires Holds(Scan(s).0, Scan(s).1) && (Scan(s).0 ==> invalidEncoding)
      modifies this`pendingLen, this`invalidEncoding, pending
      ensures Holds(Scan(s + p).0, Scan(s + p).1)
      ensures invalidEncoding == (old(invalidEncoding) || Scan(s + p).0)
    {
      ScanAppend(s, p);
      ghost var bad, all := Scan(s).0, pending[..pendingLen] + p;
      var rest := p;
      if pendingLen > 0 {
        rest := FillPending(p);
        if !FullRune(pending[..pendingLen]) {
          PartIsShort(pending[..pendingLen]);
          assert pending[..pendingLen] + rest == pending[..pendingLen];
          return;
        }
        var first := DecodeRune(pending[..pendingLen]);
        FullStaysFull(pending[..pendingLen], rest);
        JustFull(pending[..pendingLen]);
        assert first.1 ==> all[first.0..] == rest;
        if !first.1 {
          invalidEncoding, bad := true, true;
        }
        pendingLen := 0;
      } else {
        assert all == p;
      }
      assert bad ==> Scan(s).0 || Scan(all).0;
      ValidateRest(rest, bad, Scan(s + p));
    }

    /** The loop over whole characters; `bad` says that something was wrong before. */
    method ValidateRest(p: seq<Byte>, ghost bad: bool, ghost whole: (bool, seq<Byte>))
      requires pending.Length == 4 && pendingLen == 0
      requires if bad then whole.0 && invalidEncoding else whole == Scan(p)
      modifies this`pendingLen, this`invalidEncoding, pending
      ensures Holds(whole.0, whole.1) && invalidEncoding == (old(invalidEncoding) || whole.0)
    {
      var rest := p;
      ghost var found := bad;
      while |rest| > 0
        invariant pendingLen == 0
        invariant if found then whole.0 && invalidEncoding else whole == Scan(rest) && invalidEncoding == old(invalidEncoding)
        invariant bad ==> invalidEncoding == old(invalidEncoding)
        decreases |rest|
      {
        if rest[0] < 0x80 {
          rest := rest[1..];
          continue;
        }
        if !FullRune(rest) {
          KeepPart(rest);
          return;
        }
        var next := DecodeRune(rest);
        if !next.1 {
          invalidEncoding, found := true, true;
        }
        rest := rest[next.0..];
      }
    }

    method KeepPart(part: seq<Byte>)
      requires pending.Length == 4 && !FullRune(part)
      modifies this`pendingLen, pending
      ensures |part| < 4 && pendingLen == |part| && pending[..pendingLen] == part
    {
      PartIsShort(part);
      pendingLen := 0;
      while pendingLen < |part|
        invariant pendingLen <= |part| && pending[..pendingLen] == part[..pendingLen]
      {
        pending[pendingLen] := part[pendingLen];
        pendingLen := pendingLen + 1;
        assert pending[..pendingLen] == part[..pendingLen - 1] + [part[pendingLen - 1]];
      }
      assert part[..|part|] == part;
    }

    method ValidateEscapes(p: seq<Byte>, ghost m: Machine, ghost bad: bool)
      requires Agrees(m) && invalidEncoding == (bad || m.invalid)
      modifies this`invalidEncoding, this`inString, this`escaped, this`digits, this`value, this`pendingHigh
      ensures Agrees(Run(m, p)) && invalidEncoding == (bad || Run(m, p).invalid)
    {
      ghost var at := m;
      for i := 0 to |p|
        invariant Run(at, p[i..]) == Run(m, p)
        invariant Agrees(at) && invalidEncoding == (bad || at.invalid)
      {
        OneStep(at, p[i..]);
        assert p[i..][0] == p[i] && p[i..][1..] == p[i + 1..];
        StepDespite(at, bad, p[i]);
        assert Escapes() == at.(invalid := bad || at.invalid);
        ValidateStringByte(p[i]);
        at := Step(at, p[i]);
      }
      assert |p[|p|..]| == 0;
    }

    /** The JSON part of the state. */
    ghost function Escapes(): Machine
      reads this
    {
      Machine(inString, escaped, digits, value, pendingHigh, invalidEncoding)
    }

    method ValidateStringByte(b: Byte)
      modifies this`invalidEncoding, this`inString, this`escaped, this`digits, this`value, this`pendingHigh
      ensures Escapes() == Step(old(Escapes()), b)
    {
      if !inString {
        if b == QUOTE {
          inString := true;
        }
        return;
      }
      if digits > 0 {
        if !IsHex(b) {
          invalidEncoding := true;
          digits, value := 0, 0;
          return;
        }
        value := (value * 16 + HexDigit(b)) % 0x10000;
        digits := digits - 1;
        if digits == 0 {
          FinishUnicodeEscape();
        }
        return;
      }
      if escaped {
        escaped := false;
        if b == LETTER_U {
          digits, value := 4, 0;
          return;
        }
        if pendingHigh {
          invalidEncoding, pendingHigh := true, false;
        }
        return;
      }
      if pendingHigh {
        if b == BACKSLASH {
          escaped := true;
          return;
        }
        invalidEncoding, pendingHigh := true, false;
      }
      if b == BACKSLASH {
        escaped := true;
      } else if b == QUOTE {
        inString := false;
      }
    }

    method FinishUnicodeEscape()
      modifies this`invalidEncoding, this`value, this`pendingHigh
      ensures Escapes() == WithCode(old(Escapes()), old(value)).(digits := old(digits))
    {
      if 0xD800 <= value <= 0xDBFF {
        if pendingHigh {
          invalidEncoding := true;
        }
        pendingHigh := true;
      } else if 0xDC00 <= value <= 0xDFFF {
        if !pendingHigh {
          invalidEncoding := true;
        }
        pendingHigh := false;
      } else {
        if pendingHigh {
          invalidEncoding, pendingHigh := true, false;
        }
      }
      value := 0;
    }

    /** Whatever the chunks were: valid UTF-8, and surrogate escapes in pairs. */
    method Valid(ghost s: seq<Byte>) returns (valid: bool)
      requires Read(s)
      ensures valid <==> IsUtf8(s) && WellPaired(Units(s, false))
    {
      ScanDecidesUtf8(s);
      EscapesAreDecided(s);
      valid := !invalidEncoding && pendingLen == 0 && digits == 0 && !pendingHigh;
    }
  }

  method ValidateChunks(chunks: seq<seq<Byte>>) returns (valid: bool)
    ensures valid <==> IsUtf8(Joined(chunks)) && WellPaired(Units(Joined(chunks), false))
  {
    var v := new JsonUnicodeValidator();
    for i := 0 to |chunks|
      invariant v.Read(Joined(chunks[..i])) && fresh(v) && fresh(v.pending)
    {
      assert chunks[..i + 1][..i] == chunks[..i];
      v.Write(chunks[i], Joined(chunks[..i]));
    }
    assert chunks[..|chunks|] == chunks;
    valid := v.Valid(Joined(chunks));
  }
}
