/** The two functions ShaderProgram hands to its std::unordered_map of uniform names
    (ShaderManager.h): the polynomial string hash and strcmp-based equality. Names are
    NUL-terminated byte buffers; what both functions look at is the buffer's contents
    up to the first NUL. */
module CStrings {

  newtype byte = b: int | 0 <= b < 256

  /** size_t on the 64-bit targets the project builds for. */
  const WORD: int := 0x1_0000_0000_0000_0000

  /** A buffer strlen and strcmp may read: it holds a NUL somewhere. */
  predicate Terminated(buf: seq<byte>)
  {
    0 in buf
  }

  /** strlen: the index of the first NUL. */
  function Strlen(buf: seq<byte>): (n: nat)
    requires Terminated(buf)
    ensures n < |buf| && buf[n] == 0
    ensures forall i :: 0 <= i < n ==> buf[i] != 0
  {
    if buf[0] == 0 then 0
    else
      assert 0 in buf[1..];
      1 + Strlen(buf[1..])
  }

  /** The C string a buffer holds: the bytes before the first NUL. */
  function CString(buf: seq<byte>): (s: seq<byte>)
    requires Terminated(buf)
    ensures 0 !in s && |s| < |buf| && s == buf[..|s|] && buf[|s|] == 0
  {
    buf[..Strlen(buf)]
  }

  /** A string without a NUL, stored with its terminator, reads back as itself. */
  lemma CStringOfStored(s: seq<byte>, rest: seq<byte>)
    requires 0 !in s
    ensures Terminated(s + [0] + rest) && CString(s + [0] + rest) == s
  {
    var buf := s + [0] + rest;
    assert buf[|s|] == 0;
    assert buf[..|s|] == s;
  }

  // ----- The hash: hash = hash * 31 + c over the characters, in size_t -----

  /** `char` is signed on the compilers the project targets: bytes 128..255 read as
      -128..-1. */
  function SignedChar(b: byte): (c: int)
    ensures -128 <= c < 128
    ensures c % 256 == b as int
  {
    if b < 128 then b as int else b as int - 256
  }

  /** Reduction to size_t. */
  function Wrap(x: int): int
  {
    x % WORD
  }

  /** The polynomial in unbounded integers, folded the way the loop folds it. */
  function Poly(s: seq<byte>): int
  {
    if |s| == 0 then 0 else Poly(s[..|s| - 1]) * 31 + SignedChar(s[|s| - 1])
  }

  function Pow31(k: nat): (p: int)
    ensures p >= 1
  {
    if k == 0 then 1 else 31 * Pow31(k - 1)
  }

  /** The same polynomial written as a weighted sum: each character weighted by 31 to
      the number of characters after it. */
  function WeightedSum(s: seq<byte>): int
  {
    if |s| == 0 then 0 else SignedChar(s[0]) * Pow31(|s| - 1) + WeightedSum(s[1..])
  }

  /** The value ShaderProgram's Hash returns for a string's contents. */
  function HashOf(s: seq<byte>): (h: int)
    ensures 0 <= h < WORD
  {
    Wrap(Poly(s))
  }

  /** Adding a multiple of the word size does not change the reduction. */
  lemma WrapAddMultiple(x: int, k: int)
    ensures Wrap(x + k * WORD) == Wrap(x)
  {
    var q := x / WORD;
    var r := x % WORD;
    assert x == q * WORD + r;
    assert x + k * WORD == (q + k) * WORD + r;
  }

  /** Reducing after every step, as size_t arithmetic does, gives the reduction of the
      unbounded result. */
  lemma WrapStep(a: int, c: int)
    ensures Wrap(Wrap(a) * 31 + c) == Wrap(a * 31 + c)
  {
    var q := a / WORD;
    assert a == q * WORD + Wrap(a);
    assert a * 31 + c == Wrap(a) * 31 + c + (q * 31) * WORD;
    WrapAddMultiple(Wrap(a) * 31 + c, q * 31);
  }

  /** ShaderProgram's Hash: walks the buffer to its NUL, folding each (signed) character
      into a size_t accumulator. The result is the wrapped polynomial of the contents. */
  method Hash(name: seq<byte>) returns (h: int)
    requires Terminated(name)
    ensures h == HashOf(CString(name))
  {
    h := 0;
    var i := 0;
    while name[i] != 0
      invariant 0 <= i <= Strlen(name)
      invariant h == Wrap(Poly(name[..i]))
      decreases Strlen(name) - i
    {
      assert name[..i + 1][..i] == name[..i];
      WrapStep(Poly(name[..i]), SignedChar(name[i]));
      h := Wrap(h * 31 + SignedChar(name[i]));
      i := i + 1;
    }
  }

  /** Poly with its first character split off: that character contributes its weight,
      the rest folds as before. */
  lemma {:induction false} PolyFirst(c: byte, t: seq<byte>)
    ensures Poly([c] + t) == SignedChar(c) * Pow31(|t|) + Poly(t)
    decreases |t|
  {
    if |t| == 0 {
      assert ([c] + t)[..0] == [];
    } else {
      var t' := t[..|t| - 1];
      var d := t[|t| - 1];
      assert ([c] + t)[..|t|] == [c] + t';
      PolyFirst(c, t');
      calc {
        Poly([c] + t);
        Poly([c] + t') * 31 + SignedChar(d);
        (SignedChar(c) * Pow31(|t'|) + Poly(t')) * 31 + SignedChar(d);
        SignedChar(c) * (Pow31(|t'|) * 31) + (Poly(t') * 31 + SignedChar(d));
        SignedChar(c) * Pow31(|t|) + Poly(t);
      }
    }
  }

  /** The loop's fold and the weighted sum are the same polynomial. */
  lemma {:induction false} PolyIsWeightedSum(s: seq<byte>)
    ensures Poly(s) == WeightedSum(s)
    decreases |s|
  {
    if |s| > 0 {
      assert s == [s[0]] + s[1..];
      PolyFirst(s[0], s[1..]);
      PolyIsWeightedSum(s[1..]);
    }
  }

  /** Strings that compare equal hash equal, as std::unordered_map requires of its hash
      and key-equality pair. */
  lemma HashRespectsEqual(a: seq<byte>, b: seq<byte>)
    requires Terminated(a) && Terminated(b)
    requires Strcmp(a, b) == 0
    ensures HashOf(CString(a)) == HashOf(CString(b))
  {
    StrcmpZeroIffSameString(a, b);
  }

  // ----- Equality: strcmp(a, b) == 0 -----

  /** strcmp: the difference of the first differing bytes, read as unsigned char, or 0
      when the strings end together. */
  function Strcmp(a: seq<byte>, b: seq<byte>): int
    requires Terminated(a) && Terminated(b)
  {
    if a[0] != b[0] then a[0] as int - b[0] as int
    else if a[0] == 0 then 0
    else
      assert 0 in a[1..] && 0 in b[1..];
      Strcmp(a[1..], b[1..])
  }

  /** A C string that does not start with NUL is its first byte followed by the C
      string of the rest of the buffer. */
  lemma CStringCons(a: seq<byte>)
    requires Terminated(a) && a[0] != 0
    ensures Terminated(a[1..]) && CString(a) == [a[0]] + CString(a[1..])
  {
    assert 0 in a[1..];
    assert Strlen(a) == 1 + Strlen(a[1..]);
    assert a[..Strlen(a)] == [a[0]] + a[1..][..Strlen(a[1..])];
  }

  /** strcmp answers 0 exactly when the two buffers hold the same C string: equality of
      uniform names is equality of contents, not of addresses. */
  lemma {:induction false} StrcmpZeroIffSameString(a: seq<byte>, b: seq<byte>)
    requires Terminated(a) && Terminated(b)
    ensures Strcmp(a, b) == 0 <==> CString(a) == CString(b)
    decreases |a|
  {
    if a[0] != b[0] {
      assert Strcmp(a, b) != 0;
      if a[0] == 0 {
        CStringCons(b);
        assert |CString(a)| == 0 < |CString(b)|;
      } else if b[0] == 0 {
        CStringCons(a);
        assert |CString(b)| == 0 < |CString(a)|;
      } else {
        CStringCons(a);
        CStringCons(b);
        assert CString(a)[0] != CString(b)[0];
      }
    } else if a[0] == 0 {
      assert Strlen(a) == 0 && Strlen(b) == 0;
    } else {
      CStringCons(a);
      CStringCons(b);
      StrcmpZeroIffSameString(a[1..], b[1..]);
      assert Strcmp(a, b) == Strcmp(a[1..], b[1..]);
      if CString(a) == CString(b) {
        assert CString(a)[1..] == CString(a[1..]);
        assert CString(b)[1..] == CString(b[1..]);
      }
    }
  }

  /** ShaderProgram's Equal on two names. */
  function Equal(a: seq<byte>, b: seq<byte>): (r: bool)
    requires Terminated(a) && Terminated(b)
    ensures r <==> CString(a) == CString(b)
  {
    StrcmpZeroIffSameString(a, b);
    Strcmp(a, b) == 0
  }
}
