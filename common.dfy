/** Values shared by the handlers of the backend and the pages of the frontend. */
module Common {

  datatype Option<+T> = None | Some(value: T)

  /** A handler's reply: an HTTP-style status code and a body of the handler's own shape. */
  datatype Response<+B> = Response(statusCode: int, body: B)

  /** A rejected call into an external service: the error's `name` and its `message`. */
  datatype ServiceError = ServiceError(name: string, message: string)

  /** JavaScript's `!value` for a string-valued field that may be absent. */
  predicate Truthy(v: Option<string>)
  {
    v.Some? && v.value != ""
  }

  newtype byte = x: int | 0 <= x < 256

  type Bytes = seq<byte>

  /** A file the browser hands over: its name, its declared media type (`type`) and its bytes. */
  datatype File = File(name: string, mime: string, content: Bytes)

  lemma {:induction false} SubsetCard<T>(a: set<T>, b: set<T>)
    requires a <= b
    ensures |a| <= |b|
    decreases |a|
  {
    if a != {} {
      var x :| x in a;
      SubsetCard(a - {x}, b - {x});
    }
  }
}

/**
 * The character class `\s` of JavaScript regular expressions and the email test
 * `/\S+@\S+\.\S+/.test(email)` that the sign-up, sign-in, email verification and
 * password reset forms all apply.
 */
module Text {

  /** JavaScript's `\s`: the ECMAScript white space and line terminator characters. */
  predicate IsSpace(c: char)
  {
    || c == '\t' || c == '\n' || c == '\U{000B}' || c == '\U{000C}' || c == '\r'
    || c == ' ' || c == '\U{00A0}' || c == '\U{1680}'
    || ('\U{2000}' <= c <= '\U{200A}')
    || c == '\U{2028}' || c == '\U{2029}' || c == '\U{202F}' || c == '\U{205F}'
    || c == '\U{3000}' || c == '\U{FEFF}'
  }

  predicate NoSpace(t: string)
  {
    forall k :: 0 <= k < |t| ==> !IsSpace(t[k])
  }

  /** `t[..a]`, `t[a + 1..d]` and `t[d + 1..]` are the three `\S+` runs of a whole match. */
  predicate ShapeAt(t: string, a: int, d: int)
  {
    0 < a && a + 1 < d && d + 1 < |t| && t[a] == '@' && t[d] == '.'
  }

  /**
   * `t` as a whole matches `\S+@\S+\.\S+`: no white space anywhere, an '@' with at
   * least one character before it, and a later '.' with at least one character
   * between the two and at least one after it.
   */
  predicate WholeEmailShape(t: string)
  {
    NoSpace(t) && exists a, d | 0 <= a < |t| && 0 <= d < |t| :: ShapeAt(t, a, d)
  }

  /** The regular expression is not anchored: `test` succeeds when some substring matches. */
  predicate EmailTest(s: string)
  {
    exists i, j :: 0 <= i <= j <= |s| && WholeEmailShape(s[i..j])
  }

  /**
   * An '@' at `a` preceded by a non-space character, a '.' at `d > a + 1`, only non-space
   * characters strictly between them, and a non-space character right after the '.'.
   */
  predicate EmailAt(s: string, a: int, d: int)
  {
    && 1 <= a && a + 1 < d && d + 1 < |s|
    && s[a] == '@' && !IsSpace(s[a - 1])
    && s[d] == '.' && NoSpace(s[a + 1..d]) && !IsSpace(s[d + 1])
  }

  /** The same test stated on `s` itself rather than on its substrings. */
  predicate EmailAround(s: string)
  {
    exists a, d | 0 <= a < |s| && 0 <= d < |s| :: EmailAt(s, a, d)
  }

  lemma SubstringMatchIsAround(s: string, i: int, j: int)
    requires 0 <= i <= j <= |s| && WholeEmailShape(s[i..j])
    ensures EmailAround(s)
  {
    var t := s[i..j];
    var a, d :| 0 <= a < |t| && 0 <= d < |t| && ShapeAt(t, a, d);
    assert t[a - 1] == s[i + a - 1] && t[d + 1] == s[i + d + 1];
    var mid := s[i + a + 1..i + d];
    forall k | 0 <= k < |mid| ensures !IsSpace(mid[k]) {
      assert mid[k] == t[a + 1 + k];
    }
    assert EmailAt(s, i + a, i + d);
  }

  lemma AroundIsSubstringMatch(s: string, a: int, d: int)
    requires EmailAt(s, a, d)
    ensures WholeEmailShape(s[a - 1..d + 2])
  {
    var t := s[a - 1..d + 2];
    forall k | 0 <= k < |t| ensures !IsSpace(t[k]) {
      if 1 < k < d - a + 1 {
        assert t[k] == s[a + 1..d][k - 2];
      }
    }
    assert ShapeAt(t, 1, d - a + 1);
  }

  lemma {:induction false} EmailTestIff(s: string)
    ensures EmailTest(s) <==> EmailAround(s)
  {
    if EmailTest(s) {
      var i, j :| 0 <= i <= j <= |s| && WholeEmailShape(s[i..j]);
      SubstringMatchIsAround(s, i, j);
    }
    if EmailAround(s) {
      var a, d :| 0 <= a < |s| && 0 <= d < |s| && EmailAt(s, a, d);
      AroundIsSubstringMatch(s, a, d);
    }
  }

  lemma EmailAccepted()
    ensures EmailTest("user@mail.com")
    ensures EmailTest("contact: x@y.z please")
  {
    var s := "user@mail.com";
    assert NoSpace(s[5..9]);
    assert EmailAt(s, 4, 9);
    EmailTestIff(s);
    var u := "contact: x@y.z please";
    assert NoSpace(u[11..12]);
    assert EmailAt(u, 10, 12);
    EmailTestIff(u);
  }

  lemma EmailRejected()
    ensures !EmailTest("")
    ensures !EmailTest("user@mail")
    ensures !EmailTest("user@.com")
    ensures !EmailTest("user @mail.com")
    ensures !EmailTest("user@ma il.com")
  {
    EmailTestIff("");
    EmailTestIff("user@mail");
    var s := "user@.com";
    EmailTestIff(s);
    forall a, d ensures !EmailAt(s, a, d) {
      if 0 <= a < |s| && s[a] == '@' { assert a == 4; }
    }
    var u := "user @mail.com";
    EmailTestIff(u);
    forall a, d ensures !EmailAt(u, a, d) {
      if 0 <= a < |u| && u[a] == '@' { assert a == 5; }
    }
    var w := "user@ma il.com";
    EmailTestIff(w);
    forall a, d ensures !EmailAt(w, a, d) {
      if 0 <= a < |w| && 0 <= d < |w| && w[a] == '@' && w[d] == '.' && a + 1 < d {
        assert a == 4 && d == 10;
        assert w[a + 1..d][2] == ' ';
      }
    }
  }

  /** `part` occurs in `s` starting at index `i`. */
  predicate PartAt(s: string, part: string, i: int)
  {
    0 <= i <= |s| - |part| && s[i..i + |part|] == part
  }

  /** JavaScript's `s.includes(part)`. */
  predicate Contains(s: string, part: string)
  {
    exists i | 0 <= i <= |s| :: PartAt(s, part, i)
  }

  /** Python's `s.endswith(suffix)`. */
  predicate EndsWith(s: string, suffix: string)
  {
    |suffix| <= |s| && s[|s| - |suffix|..] == suffix
  }
}
