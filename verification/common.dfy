/** Values shared by the server and the client model: optional values,
    identifiers, the line segment both sides exchange, and the two small
    conversions of JavaScript built-ins the model needs. */
module Common {

  /** A value that may be missing (`undefined`/`null` in the source). */
  datatype Option<+T> = None | Some(value: T)

  /** A socket id; the server uses it as the user id. */
  type UserId = string

  type RoomId = string

  /** A CSS colour string such as `#FF6B6B`. */
  type Color = string

  /** One straight line primitive. The client builds it in `draw`; the server
      stores and relays it without looking inside. Coordinates are opaque. */
  datatype Segment = Segment(x0: int, y0: int, x1: int, y1: int, color: Color, size: int, tool: string)

  /** JavaScript truthiness of an optional string field: a missing field and
      the empty string are both falsy, so `field || fallback` takes the fallback. */
  predicate Truthy(o: Option<string>) {
    o.Some? && o.value != ""
  }

  function Digit(d: nat): (c: char)
    requires d < 10
    ensures '0' <= c <= '9'
    ensures c as int - '0' as int == d
  {
    ('0' as int + d) as char
  }

  /** Decimal rendering of a non-negative number, as string concatenation in
      JavaScript renders `Date.now()` or a roster size. */
  function NatToString(n: nat): (r: string)
    ensures |r| >= 1
    ensures forall i :: 0 <= i < |r| ==> '0' <= r[i] <= '9'
    decreases n
  {
    if n < 10 then [Digit(n)] else NatToString(n / 10) + [Digit(n % 10)]
  }

  /** Reads a string of decimal digits back as a number. */
  function ParseNat(s: string): nat
    requires forall i :: 0 <= i < |s| ==> '0' <= s[i] <= '9'
  {
    if |s| == 0 then 0 else 10 * ParseNat(s[..|s| - 1]) + (s[|s| - 1] as int - '0' as int)
  }

  /** The rendering loses nothing: reading it back gives the number. */
  lemma {:induction false} ParseNatToString(n: nat)
    ensures ParseNat(NatToString(n)) == n
    decreases n
  {
    var s := NatToString(n);
    if n < 10 {
      assert s == [Digit(n)];
      assert s[..0] == [];
    } else {
      var p := NatToString(n / 10);
      assert s == p + [Digit(n % 10)];
      assert s[..|s| - 1] == p;
      ParseNatToString(n / 10);
      assert ParseNat(s) == 10 * (n / 10) + n % 10;
    }
  }

  /** Distinct clock readings give distinct stroke id prefixes, and distinct
      roster sizes give distinct default names. */
  lemma NatToStringInjective(m: nat, n: nat)
    requires NatToString(m) == NatToString(n)
    ensures m == n
  {
    ParseNatToString(m);
    ParseNatToString(n);
  }

  /** `Array.from` over a set: lists every element exactly once. The order
      (insertion order in JavaScript) is left unspecified. */
  method SetToSeq<T(==)>(s: set<T>) returns (r: seq<T>)
    ensures |r| == |s|
    ensures forall x :: x in r <==> x in s
    ensures forall i, j :: 0 <= i < j < |r| ==> r[i] != r[j]
  {
    r := [];
    var rest := s;
    while rest != {}
      invariant rest <= s
      invariant forall x :: x in r <==> x in s && x !in rest
      invariant forall i, j :: 0 <= i < j < |r| ==> r[i] != r[j]
      invariant |r| + |rest| == |s|
      decreases |rest|
    {
      var x :| x in rest;
      r := r + [x];
      rest := rest - {x};
    }
  }
}
