/**
 * The few PHP string primitives the server relies on, modelled concretely:
 * `explode` / `implode` with a one-character separator, string truthiness
 * (`if ($s)`, `array_filter` without a callback), `str_starts_with` and
 * `str_contains` on a character.
 */
module PhpStrings {

  /** Number of occurrences of `c` in `s`. */
  function Occurrences(c: char, s: string): (n: nat)
    ensures n == 0 <==> c !in s
    ensures n <= |s|
  {
    if s == [] then 0
    else (if s[0] == c then 1 else 0) + Occurrences(c, s[1..])
  }

  /** Occurrences add up over a concatenation. */
  lemma {:induction false} OccurrencesAppend(c: char, a: string, b: string)
    ensures Occurrences(c, a + b) == Occurrences(c, a) + Occurrences(c, b)
    decreases |a|
  {
    if a == [] {
      assert a + b == b;
    } else {
      assert (a + b)[1..] == a[1..] + b;
      OccurrencesAppend(c, a[1..], b);
    }
  }

  /**
   * PHP `explode($sep, $s)`: the pieces between separators, never empty as a
   * list (`explode(' ', '')` is `['']`), one more piece than separators.
   */
  function Explode(sep: char, s: string): (parts: seq<string>)
    ensures |parts| >= 1
    decreases |s|
  {
    if s == [] then [""]
    else
      var rest := Explode(sep, s[1..]);
      if s[0] == sep then [""] + rest
      else [[s[0]] + rest[0]] + rest[1..]
  }

  /** `explode` gives one more piece than there are separators, and no piece holds a separator. */
  lemma {:induction false} ExplodeShape(sep: char, s: string)
    ensures |Explode(sep, s)| == Occurrences(sep, s) + 1
    ensures forall i :: 0 <= i < |Explode(sep, s)| ==> sep !in Explode(sep, s)[i]
    decreases |s|
  {
    if s != [] {
      var rest := Explode(sep, s[1..]);
      ExplodeShape(sep, s[1..]);
      if s[0] != sep {
        var parts := Explode(sep, s);
        assert parts == [[s[0]] + rest[0]] + rest[1..];
        forall i | 0 <= i < |parts| ensures sep !in parts[i] {
          if i == 0 {
            assert sep !in rest[0];
          } else {
            assert parts[i] == rest[i];
          }
        }
      }
    }
  }

  /** PHP `implode($sep, $parts)`; `implode(' ', [])` is `''`. */
  function Implode(sep: char, parts: seq<string>): string
    decreases |parts|
  {
    if |parts| == 0 then ""
    else if |parts| == 1 then parts[0]
    else parts[0] + [sep] + Implode(sep, parts[1..])
  }

  /** Joining after prefixing a character to the first piece prefixes it to the result. */
  lemma ImplodeHead(sep: char, c: char, parts: seq<string>)
    requires |parts| >= 1
    ensures Implode(sep, [[c] + parts[0]] + parts[1..]) == [c] + Implode(sep, parts)
  {
    var ps := [[c] + parts[0]] + parts[1..];
    assert ps[1..] == parts[1..];
    if |parts| > 1 {
      assert Implode(sep, ps) == [c] + parts[0] + [sep] + Implode(sep, parts[1..]);
    }
  }

  /** Joining the pieces of `explode` with the same separator gives the input back. */
  lemma {:induction false} ImplodeExplode(sep: char, s: string)
    ensures Implode(sep, Explode(sep, s)) == s
    decreases |s|
  {
    if s != [] {
      var rest := Explode(sep, s[1..]);
      ImplodeExplode(sep, s[1..]);
      assert s == [s[0]] + s[1..];
      if s[0] == sep {
        var parts := [""] + rest;
        assert Explode(sep, s) == parts;
        assert parts[1..] == rest;
        assert Implode(sep, parts) == "" + [sep] + Implode(sep, rest);
      } else {
        assert Explode(sep, s) == [[s[0]] + rest[0]] + rest[1..];
        ImplodeHead(sep, s[0], rest);
      }
    }
  }

  /** A separator-free prefix becomes part of the first piece. */
  lemma {:induction false} ExplodeFreePrefix(sep: char, w: string, t: string)
    requires sep !in w
    ensures Explode(sep, w + t) == [w + Explode(sep, t)[0]] + Explode(sep, t)[1..]
    decreases |w|
  {
    var e := Explode(sep, t);
    if w == [] {
      assert w + t == t && w + e[0] == e[0];
      assert [e[0]] + e[1..] == e;
    } else {
      assert (w + t)[1..] == w[1..] + t;
      assert (w + t)[0] == w[0] && w[0] != sep;
      var r := Explode(sep, w[1..] + t);
      ExplodeFreePrefix(sep, w[1..], t);
      assert r[0] == w[1..] + e[0] && r[1..] == e[1..];
      assert Explode(sep, w + t) == [[w[0]] + r[0]] + r[1..];
      assert [w[0]] + (w[1..] + e[0]) == w + e[0];
    }
  }

  /** Splitting a join of separator-free pieces gives the pieces back. */
  lemma {:induction false} ExplodeImplode(sep: char, parts: seq<string>)
    requires |parts| >= 1
    requires forall i :: 0 <= i < |parts| ==> sep !in parts[i]
    ensures Explode(sep, Implode(sep, parts)) == parts
    decreases |parts|
  {
    if |parts| == 1 {
      ExplodeFreePrefix(sep, parts[0], "");
      assert parts[0] + "" == parts[0];
    } else {
      var tail := Implode(sep, parts[1..]);
      ExplodeImplode(sep, parts[1..]);
      ExplodeFreePrefix(sep, parts[0], [sep] + tail);
      assert parts[0] + [sep] + tail == parts[0] + ([sep] + tail);
      assert ([sep] + tail)[1..] == tail;
      assert Explode(sep, [sep] + tail) == [""] + parts[1..];
      assert parts[0] + "" == parts[0];
      assert ([""] + parts[1..])[1..] == parts[1..];
      assert parts == [parts[0]] + parts[1..];
    }
  }

  /** PHP truthiness of a string: everything except `""` and `"0"`. */
  predicate Truthy(s: string) {
    s != "" && s != "0"
  }

  /**
   * PHP `array_filter($parts)` without a callback, renumbered: drops the
   * falsy pieces and keeps the others in order, duplicates included.
   */
  function FilterTruthy(parts: seq<string>): (kept: seq<string>)
    ensures forall x :: x in kept <==> x in parts && Truthy(x)
    ensures |kept| <= |parts|
  {
    if parts == [] then []
    else if Truthy(parts[0]) then [parts[0]] + FilterTruthy(parts[1..])
    else FilterTruthy(parts[1..])
  }

  /** PHP `str_starts_with($s, $prefix)`. */
  predicate StartsWith(s: string, prefix: string) {
    |prefix| <= |s| && s[..|prefix|] == prefix
  }
}
