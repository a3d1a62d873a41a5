// Datatypes and Go string helpers shared by the component models.

module Wrappers {
  datatype Option<+T> = None | Some(value: T)

  datatype Result<+T, +E> = Success(value: T) | Failure(error: E)
}

/** Byte streams that arrive in chunks, and Go's bytes.TrimSpace on UTF-8. */
module Bytes {
  type Byte = x: int | 0 <= x < 256 witness 0

  /** The `n` bytes from `i` on encode one rune for which unicode.IsSpace holds. */
  predicate SpaceAt(s: seq<Byte>, i: nat, n: nat)
    requires i + n <= |s|
  {
    || (n == 1 && (s[i] == 0x20 || 0x09 <= s[i] <= 0x0D))
    || (n == 2 && s[i] == 0xC2 && (s[i + 1] == 0x85 || s[i + 1] == 0xA0))
    || (n == 3 && s[i] == 0xE1 && s[i + 1] == 0x9A && s[i + 2] == 0x80)
    || (n == 3 && s[i] == 0xE2 && s[i + 1] == 0x80 &&
        (0x80 <= s[i + 2] <= 0x8A || s[i + 2] == 0xA8 || s[i + 2] == 0xA9 || s[i + 2] == 0xAF))
    || (n == 3 && s[i] == 0xE2 && s[i + 1] == 0x81 && s[i + 2] == 0x9F)
    || (n == 3 && s[i] == 0xE3 && s[i + 1] == 0x80 && s[i + 2] == 0x80)
  }

  function TrimFront(s: seq<Byte>): (r: seq<Byte>)
    ensures |r| <= |s|
  {
    if |s| > 0 && SpaceAt(s, 0, 1) then TrimFront(s[1..])
    else if |s| > 1 && SpaceAt(s, 0, 2) then TrimFront(s[2..])
    else if |s| > 2 && SpaceAt(s, 0, 3) then TrimFront(s[3..])
    else s
  }

  function TrimBack(s: seq<Byte>): (r: seq<Byte>)
    ensures |r| <= |s|
  {
    if |s| > 0 && SpaceAt(s, |s| - 1, 1) then TrimBack(s[..|s| - 1])
    else if |s| > 1 && SpaceAt(s, |s| - 2, 2) then TrimBack(s[..|s| - 2])
    else if |s| > 2 && SpaceAt(s, |s| - 3, 3) then TrimBack(s[..|s| - 3])
    else s
  }

  function TrimSpace(s: seq<Byte>): seq<Byte> {
    TrimBack(TrimFront(s))
  }

  /** All chunks of a stream, one after the other. */
  function Joined(chunks: seq<seq<Byte>>): seq<Byte> {
    if |chunks| == 0 then [] else Joined(chunks[..|chunks| - 1]) + chunks[|chunks| - 1]
  }

  lemma {:induction false} JoinedFirst(chunk: seq<Byte>, chunks: seq<seq<Byte>>)
    ensures Joined([chunk] + chunks) == chunk + Joined(chunks)
  {
    var all := [chunk] + chunks;
    if |chunks| == 0 {
      assert Joined(all[..0]) + chunk == chunk;
    } else {
      JoinedFirst(chunk, chunks[..|chunks| - 1]);
      assert all[..|all| - 1] == [chunk] + chunks[..|chunks| - 1];
    }
  }

  lemma JoinedLast(chunks: seq<seq<Byte>>, chunk: seq<Byte>)
    ensures Joined(chunks + [chunk]) == Joined(chunks) + chunk
  {
    assert (chunks + [chunk])[..|chunks|] == chunks;
  }
}

module IntSets {
  lemma {:induction false} BoundExists(keys: set<int>, least: nat) returns (bound: nat)
    ensures least <= bound && forall k: int :: k in keys ==> k < bound
  {
    if k: int :| k in keys {
      bound := BoundExists(keys - {k}, least);
      assert forall j: int :: j in keys ==> j == k || j in keys - {k};
      if k >= bound {
        bound := k + 1;
      }
    } else {
      bound := least;
    }
  }
}

/** Go's strings.TrimSpace and string comparison, on sequences of Unicode scalar values. */
module GoText {
  /** unicode.IsSpace. */
  predicate IsSpace(c: char) {
    || '\t' <= c <= '\r' || c == ' ' || c == '\U{85}' || c == '\U{A0}'
    || c == '\U{1680}' || '\U{2000}' <= c <= '\U{200A}' || '\U{2028}' <= c <= '\U{2029}'
    || c == '\U{202F}' || c == '\U{205F}' || c == '\U{3000}'
  }

  predicate Trimmed(s: string) {
    s == [] || (!IsSpace(s[0]) && !IsSpace(s[|s| - 1]))
  }

  function TrimLeft(s: string): (r: string)
    ensures r == [] || !IsSpace(r[0])
  {
    if s != [] && IsSpace(s[0]) then TrimLeft(s[1..]) else s
  }

  function TrimRight(s: string): (r: string)
    ensures r == [] || (s != [] && !IsSpace(r[|r| - 1]) && r[0] == s[0])
  {
    if s != [] && IsSpace(s[|s| - 1]) then TrimRight(s[..|s| - 1]) else s
  }

  function TrimSpace(s: string): (r: string)
    ensures Trimmed(r)
    ensures Trimmed(s) ==> r == s
  {
    TrimRight(TrimLeft(s))
  }

  /** Go's `a < b` on strings. */
  predicate Less(a: string, b: string) {
    b != [] && (a == [] || a[0] < b[0] || (a[0] == b[0] && Less(a[1..], b[1..])))
  }

  lemma {:induction false} LessIsTotal(a: string, b: string)
    ensures Less(a, b) || a == b || Less(b, a)
  {
    if a != [] && b != [] && a[0] == b[0] {
      LessIsTotal(a[1..], b[1..]);
      assert a == [a[0]] + a[1..] && b == [b[0]] + b[1..];
    }
  }

  lemma {:induction false} LessIsAsymmetric(a: string, b: string)
    requires Less(a, b)
    ensures !Less(b, a) && a != b
  {
    if a != [] && a[0] == b[0] {
      LessIsAsymmetric(a[1..], b[1..]);
    }
  }

  lemma {:induction false} LessIsTransitive(a: string, b: string, c: string)
    requires Less(a, b) && Less(b, c)
    ensures Less(a, c)
  {
    if a != [] && a[0] == b[0] == c[0] {
      LessIsTransitive(a[1..], b[1..], c[1..]);
    }
  }
}
