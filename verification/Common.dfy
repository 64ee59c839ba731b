/** Small vocabulary shared by the component models. */
module Common {

  /** Size of every metric buffer. */
  const METRIC_BUFSIZ := 32768

  datatype Option<+T> = None | Some(value: T)

  /** A half-open span of a string, as recorded in a `regmatch_t`. */
  datatype Span = Span(so: int, eo: int)

  /** `needle` stands in `hay` at offset `i`. */
  ghost predicate OccursAt<T>(needle: seq<T>, hay: seq<T>, i: int) {
    0 <= i && i + |needle| <= |hay| && hay[i..i + |needle|] == needle
  }

  ghost predicate Substring<T>(needle: seq<T>, hay: seq<T>) {
    exists i :: OccursAt(needle, hay, i)
  }

  lemma {:induction false} SubstringTransitive<T>(a: seq<T>, b: seq<T>, c: seq<T>)
    requires Substring(a, b) && Substring(b, c)
    ensures Substring(a, c)
  {
    var i :| OccursAt(a, b, i);
    var j :| OccursAt(b, c, j);
    var w := c[j..j + |b|];
    forall k | 0 <= k < |a| ensures c[j + i + k] == a[k] {
      assert w[i + k] == b[i..i + |a|][k];
    }
    assert OccursAt(a, c, j + i);
  }

  // Characters, spelt out

  const SMALL := "abcdefghijklmnopqrstuvwxyz"
  const CAPITAL := "ABCDEFGHIJKLMNOPQRSTUVWXYZ"
  const DIGITS := "0123456789"

  lemma {:induction false} SmallLetters(c: char)
    ensures c in SMALL <==> 'a' <= c <= 'z'
  {
    if 'a' <= c <= 'z' {
      assert SMALL[c as int - 'a' as int] == c;
    }
  }

  lemma {:induction false} CapitalLetters(c: char)
    ensures c in CAPITAL <==> 'A' <= c <= 'Z'
  {
    if 'A' <= c <= 'Z' {
      assert CAPITAL[c as int - 'A' as int] == c;
    }
  }

  lemma {:induction false} DecimalDigits(c: char)
    ensures c in DIGITS <==> '0' <= c <= '9'
  {
    if '0' <= c <= '9' {
      assert DIGITS[c as int - '0' as int] == c;
    }
  }
}
