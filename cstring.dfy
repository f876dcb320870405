/** The String `<` and `>` of logic.swift and screen.swift: `strcmp` (section
    7.24.4.2 of ISO/IEC 9899:2011) on the UTF-8 bytes of the two strings,
    comparing bytes as unsigned char. A string is its UTF-8 byte sequence; the
    terminating NUL of the C string is the end of the sequence. */
module CString {

  newtype byte = x: int | 0 <= x < 256

  /** The byte at position i of the NUL-terminated copy of s. */
  function At(s: seq<byte>, i: nat): byte
  {
    if i < |s| then s[i] else 0
  }

  /** No byte of s is NUL, so the C string holds all of s. */
  predicate NoNul(s: seq<byte>)
  {
    forall i :: 0 <= i < |s| ==> s[i] != 0
  }

  /** strcmp: the difference of the first pair of bytes that differ, or 0 when
      both C strings end at the same position without a difference. */
  function Strcmp(a: seq<byte>, b: seq<byte>): int
    decreases |a| + |b|
  {
    var ca, cb := At(a, 0), At(b, 0);
    if ca != cb then ca as int - cb as int
    else if ca == 0 then 0
    else Strcmp(a[1..], b[1..])
  }

  /** String `<`. */
  predicate Less(a: seq<byte>, b: seq<byte>)
  {
    Strcmp(a, b) < 0
  }

  /** String `>`. */
  predicate Greater(a: seq<byte>, b: seq<byte>)
  {
    Strcmp(a, b) > 0
  }

  lemma {:induction false} StrcmpAntisymmetric(a: seq<byte>, b: seq<byte>)
    ensures Strcmp(a, b) == -Strcmp(b, a)
    decreases |a| + |b|
  {
    if At(a, 0) == At(b, 0) && At(a, 0) != 0 {
      StrcmpAntisymmetric(a[1..], b[1..]);
    }
  }

  lemma {:induction false} StrcmpReflexive(a: seq<byte>)
    ensures Strcmp(a, a) == 0
    decreases |a|
  {
    if At(a, 0) != 0 {
      StrcmpReflexive(a[1..]);
    }
  }

  /** `a < b` holds exactly when `b > a`, and neither holds of a string and itself. */
  lemma LessIsConverseOfGreater(a: seq<byte>, b: seq<byte>)
    ensures Less(a, b) <==> Greater(b, a)
    ensures !Less(a, a) && !Greater(a, a)
  {
    StrcmpAntisymmetric(a, b);
    StrcmpReflexive(a);
  }

  /** Comparisons chain: a <= b <= c gives a <= c, strictly if either step is strict. */
  lemma {:induction false} StrcmpTransitive(a: seq<byte>, b: seq<byte>, c: seq<byte>)
    requires Strcmp(a, b) <= 0 && Strcmp(b, c) <= 0
    ensures Strcmp(a, c) <= 0
    ensures Strcmp(a, b) < 0 || Strcmp(b, c) < 0 ==> Strcmp(a, c) < 0
    decreases |a|
  {
    var ca, cb, cc := At(a, 0), At(b, 0), At(c, 0);
    if ca == cb && cb == cc && ca != 0 {
      StrcmpTransitive(a[1..], b[1..], c[1..]);
    }
  }

  /** On strings without NUL, strcmp is 0 exactly for equal strings. */
  lemma {:induction false} StrcmpZeroIffEqual(a: seq<byte>, b: seq<byte>)
    requires NoNul(a) && NoNul(b)
    ensures Strcmp(a, b) == 0 <==> a == b
    decreases |a| + |b|
  {
    if a == b {
      StrcmpReflexive(a);
    } else if a != [] && b != [] && a[0] == b[0] {
      assert a[1..] != b[1..] by {
        assert a == [a[0]] + a[1..] && b == [b[0]] + b[1..];
      }
      StrcmpZeroIffEqual(a[1..], b[1..]);
    }
  }
}
