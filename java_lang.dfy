/**
 * The pieces of the Java platform the backend leans on: 32-bit `int`
 * arithmetic and the `Long` / `Objects` hash codes, `Long.toString`,
 * enum-constant parsing after `trim().toUpperCase()`, and the exceptions
 * the services throw, as values.
 */
module JavaLang {
  import opened Wrappers
  import opened Text

  const TwoTo32 := 0x1_0000_0000
  const TwoTo64 := 0x1_0000_0000_0000_0000

  /** The `(int)` cast: the low 32 bits, read as a two's-complement number. */
  function ToInt32(x: int): (r: int)
    ensures -0x8000_0000 <= r < 0x8000_0000
    ensures (x - r) % TwoTo32 == 0
  {
    var m := x % TwoTo32;
    if m >= 0x8000_0000 then m - TwoTo32 else m
  }

  /** Numbers that agree modulo 2^32 cast to the same `int`. */
  lemma ToInt32Congruent(a: int, b: int)
    requires (a - b) % TwoTo32 == 0
    ensures ToInt32(a) == ToInt32(b)
  {
    var k := (a - b) / TwoTo32;
    assert a == b + k * TwoTo32;
    assert a % TwoTo32 == b % TwoTo32;
  }

  /** Wrapping an intermediate result does not change a wrapped `31 * h + e`. */
  lemma WrapInner(x: int, e: int)
    ensures ToInt32(31 * ToInt32(x) + e) == ToInt32(31 * x + e)
  {
    var k := (x - ToInt32(x)) / TwoTo32;
    assert x == ToInt32(x) + k * TwoTo32;
    assert (31 * x + e) - (31 * ToInt32(x) + e) == (31 * k) * TwoTo32;
    ToInt32Congruent(31 * x + e, 31 * ToInt32(x) + e);
  }

  /** Bitwise exclusive or of two natural numbers, bit by bit from the lowest. */
  function Xor(a: nat, b: nat): nat
    decreases a + b
  {
    if a == 0 && b == 0 then 0
    else 2 * Xor(a / 2, b / 2) + (if a % 2 != b % 2 then 1 else 0)
  }

  lemma {:induction false} XorZero(a: nat)
    ensures Xor(a, 0) == a
  {
    if a != 0 {
      XorZero(a / 2);
    }
  }

  /** `Long.hashCode(v)`: `(int)(v ^ (v >>> 32))` on the 64-bit pattern of `v`. */
  function LongHashCode(v: int): int {
    var u := v % TwoTo64;
    ToInt32(Xor(u % TwoTo32, u / TwoTo32))
  }

  /** An id below 2^31 hashes to itself: the high word is zero. */
  lemma SmallLongHash(v: int)
    requires 0 <= v < 0x8000_0000
    ensures LongHashCode(v) == v
  {
    XorZero(v);
  }

  /** `Objects.hashCode` of a possibly-null `Long`. */
  function NullableLongHash(v: Option<int>): int {
    if v.None? then 0 else LongHashCode(v.value)
  }

  /** `Arrays.hashCode` over the element hashes, as `Objects.hash` computes it: start at 1, then `31 * h + e` in `int` arithmetic. */
  function CombineHashes(hashes: seq<int>): (h: int)
    ensures -0x8000_0000 <= h < 0x8000_0000
  {
    if hashes == [] then 1
    else ToInt32(31 * CombineHashes(hashes[..|hashes| - 1]) + hashes[|hashes| - 1])
  }

  /** `Long.toString`, as string concatenation renders a number. */
  function LongToString(v: int): (r: string)
    ensures r != []
  {
    if v < 0 then "-" + NatToString(-v) else NatToString(v)
  }

  /** Renders a nullable value the way `"..." + x` does: `null` prints as "null". */
  function NullableToString(v: Option<int>): string {
    if v.None? then "null" else LongToString(v.value)
  }

  function NullableText(s: Option<string>): string {
    if s.None? then "null" else s.value
  }

  /** `s != null && !s.isEmpty()`. */
  predicate NonEmpty(s: Option<string>) {
    s.Some? && s.value != ""
  }

  /** `s == null || s.isBlank()`. */
  predicate NullOrBlank(s: Option<string>) {
    s.None? || IsJavaBlank(s.value)
  }

  /** A Java enum constant's name as these enums spell them: upper-case ASCII letters. */
  predicate IsConstantName(name: string) {
    name != [] && forall i :: 0 <= i < |name| ==> 'A' <= name[i] <= 'Z'
  }

  /** `Enum.valueOf`'s lookup on the text `value.trim().toUpperCase()`. */
  function ParseKey(value: string): string {
    ToUpper(JavaTrim(value))
  }

  /** A trimmed-and-upper-cased constant name is the name itself. */
  lemma {:induction false} ParseKeyOfName(name: string)
    requires IsConstantName(name)
    ensures ParseKey(name) == name
  {
    TrimPadded([], name, []);
    assert [] + name + [] == name;
    UpperOfUpper(name);
  }

  lemma UpperOfUpper(name: string)
    requires IsConstantName(name)
    ensures ToUpper(name) == name
  {
    var u := ToUpper(name);
    assert forall i :: 0 <= i < |name| ==> u[i] == name[i];
  }

  /**
   * Any spelling of a constant name that differs only in letter case,
   * surrounded by characters `trim` removes, parses to that name.
   */
  lemma ParseKeyOfVariant(pre: string, v: string, post: string, name: string)
    requires IsConstantName(name)
    requires EqualsIgnoreCase(v, name)
    requires AllSpace(pre, JavaSpaces) && AllSpace(post, JavaSpaces)
    ensures ParseKey(pre + v + post) == name
  {
    var lv := ToLower(v);
    var ln := ToLower(name);
    assert |v| == |name|;
    forall i | 0 <= i < |v|
      ensures UpperChar(v[i]) == name[i] && 'A' <= UpperChar(v[i]) <= 'Z'
    {
      assert lv[i] == ln[i];
    }
    assert 'A' <= UpperChar(v[0]) <= 'Z';
    assert 'A' <= UpperChar(v[|v| - 1]) <= 'Z';
    TrimPadded(pre, v, post);
    var u := ToUpper(v);
    assert forall i :: 0 <= i < |v| ==> u[i] == name[i];
  }

  /** `trim` removes exactly the trimmable padding around a word that starts and ends on a visible character. */
  lemma TrimPadded(pre: string, w: string, post: string)
    requires AllSpace(pre, JavaSpaces) && AllSpace(post, JavaSpaces)
    requires w != [] && !IsJavaTrimmed(w[0]) && !IsJavaTrimmed(w[|w| - 1])
    ensures JavaTrim(pre + w + post) == w
  {
    TrimStartPadded(pre, w + post);
    assert pre + w + post == pre + (w + post);
    TrimEndPadded(w, post);
  }

  lemma {:induction false} TrimStartPadded(pre: string, rest: string)
    requires AllSpace(pre, JavaSpaces)
    requires rest != [] && !IsJavaTrimmed(rest[0])
    ensures TrimStart(pre + rest, JavaSpaces) == rest
  {
    if pre != [] {
      assert (pre + rest)[1..] == pre[1..] + rest;
      TrimStartPadded(pre[1..], rest);
    } else {
      assert pre + rest == rest;
    }
  }

  lemma {:induction false} TrimEndPadded(w: string, post: string)
    requires AllSpace(post, JavaSpaces)
    requires w != [] && !IsJavaTrimmed(w[|w| - 1])
    ensures TrimEnd(w + post, JavaSpaces) == w
  {
    if post != [] {
      var shorter := post[..|post| - 1];
      assert (w + post)[..|w + post| - 1] == w + shorter;
      TrimEndPadded(w, shorter);
    } else {
      assert w + post == w;
    }
  }

  /** The exception classes the backend throws or handles. */
  datatype ExceptionKind =
    | RuntimeError          // java.lang.RuntimeException itself
    | IllegalArgument       // java.lang.IllegalArgumentException
    | NullPointer           // java.lang.NullPointerException
    | DataIntegrityViolation
    | MessageNotReadable    // Spring's HttpMessageNotReadableException
    | EntityNotFound        // jakarta.persistence.EntityNotFoundException
    | CheckedException      // any exception that is not a RuntimeException

  /** A thrown exception: its class, `getMessage()` and `getCause()`. */
  datatype Exception = Exception(kind: ExceptionKind, message: Option<string>, cause: Option<Exception>)

  /** `new RuntimeException(message)`. */
  function Runtime(message: string): Exception {
    Exception(RuntimeError, Some(message), None)
  }

  /** A `NullPointerException` from dereferencing null; the message the JVM composes is not modelled. */
  const NullDereference := Exception(NullPointer, None, None)

  /** What a Spring Data `findById(null)` throws; its message is not modelled. */
  const NullIdRejected := Exception(IllegalArgument, None, None)

  /** Every exception class here except checked exceptions extends `RuntimeException`. */
  predicate IsRuntime(e: Exception) {
    e.kind != CheckedException
  }
}
