/**
 * The few JavaScript string operations the front end's name getters rely
 * on: `trim`, `split(/\s+/)`, `join(' ')` and `toUpperCase`.
 */
module JsStrings {
  import PhpStrings

  /**
   * The characters `trim` strips and `\s` matches: ECMAScript's WhiteSpace
   * (tab, vertical tab, form feed, the space separators and the byte order
   * mark) and LineTerminator (line feed, carriage return, U+2028, U+2029).
   */
  predicate IsSpace(c: char) {
    c in Spaces
  }

  const Spaces: set<char> := {
    '\t', '\n', '\U{B}', '\U{C}', '\r', ' ', '\U{A0}', '\U{1680}',
    '\U{2000}', '\U{2001}', '\U{2002}', '\U{2003}', '\U{2004}', '\U{2005}',
    '\U{2006}', '\U{2007}', '\U{2008}', '\U{2009}', '\U{200A}',
    '\U{2028}', '\U{2029}', '\U{202F}', '\U{205F}', '\U{3000}', '\U{FEFF}'
  }

  /** The string contains no whitespace at all. */
  predicate NoSpace(w: string) {
    forall j :: 0 <= j < |w| ==> !IsSpace(w[j])
  }

  /** Every character of `s` from `lo` up to `hi` is whitespace. */
  predicate AllSpace(s: string, lo: int, hi: int)
    requires 0 <= lo && hi <= |s|
  {
    forall i :: lo <= i < hi ==> IsSpace(s[i])
  }

  /** The string neither starts nor ends with whitespace. */
  predicate Trimmed(t: string) {
    t == [] || (!IsSpace(t[0]) && !IsSpace(t[|t| - 1]))
  }

  /** `trimStart`: the suffix left after the leading whitespace. */
  function DropSpaces(s: string): (r: string)
    ensures |r| <= |s| && r == s[|s| - |r|..]
    ensures r == [] || !IsSpace(r[0])
    ensures s != [] && IsSpace(s[0]) ==> |r| < |s|
    decreases |s|
  {
    if s != [] && IsSpace(s[0]) then DropSpaces(s[1..]) else s
  }

  /** What `trimStart` cuts off is all whitespace. */
  lemma {:induction false} DropSpacesCutsSpace(s: string)
    ensures AllSpace(s, 0, |s| - |DropSpaces(s)|)
    decreases |s|
  {
    if s != [] && IsSpace(s[0]) {
      DropSpacesCutsSpace(s[1..]);
      forall i | 1 <= i < |s| - |DropSpaces(s)| ensures IsSpace(s[i]) {
        assert s[i] == s[1..][i - 1];
      }
    }
  }

  /** `trimEnd`: the prefix left before the trailing whitespace. */
  function TrimEnd(s: string): (r: string)
    ensures |r| <= |s| && r == s[..|r|]
    ensures r == [] || !IsSpace(r[|r| - 1])
    decreases |s|
  {
    if s != [] && IsSpace(s[|s| - 1]) then TrimEnd(s[..|s| - 1]) else s
  }

  /** What `trimEnd` cuts off is all whitespace. */
  lemma {:induction false} TrimEndCutsSpace(s: string)
    ensures AllSpace(s, |TrimEnd(s)|, |s|)
    decreases |s|
  {
    if s != [] && IsSpace(s[|s| - 1]) {
      var p := s[..|s| - 1];
      TrimEndCutsSpace(p);
      forall i | |TrimEnd(s)| <= i < |s| - 1 ensures IsSpace(s[i]) {
        assert s[i] == p[i];
      }
    }
  }

  /**
   * `trim`: the middle of `s` once the whitespace runs at both ends are
   * cut off.
   */
  function Trim(s: string): (t: string)
    ensures Trimmed(t)
  {
    var d := DropSpaces(s);
    var t := TrimEnd(d);
    assert t != [] ==> t[0] == d[0];
    t
  }

  /**
   * `trim` keeps the middle of `s`: before it and after it there is only
   * whitespace.
   */
  lemma TrimIsMiddle(s: string) returns (k: nat)
    ensures k + |Trim(s)| <= |s| && forall j :: 0 <= j < |Trim(s)| ==> Trim(s)[j] == s[k + j]
    ensures AllSpace(s, 0, k) && AllSpace(s, k + |Trim(s)|, |s|)
  {
    var d := DropSpaces(s);
    var t := TrimEnd(d);
    TrimUnfold(s);
    DropSpacesCutsSpace(s);
    TrimEndCutsSpace(d);
    k := TrimTail(s, d, t);
  }

  /** `trim` is `trimEnd` after `trimStart`. */
  lemma TrimUnfold(s: string)
    ensures Trim(s) == TrimEnd(DropSpaces(s))
  {
  }

  /** Cutting a suffix off the end of a suffix of `s` leaves a slice of `s` followed by what was cut. */
  lemma TrimTail(s: string, d: string, t: string) returns (k: nat)
    requires |d| <= |s| && d == s[|s| - |d|..] && AllSpace(s, 0, |s| - |d|)
    requires |t| <= |d| && t == d[..|t|] && AllSpace(d, |t|, |d|)
    ensures k + |t| <= |s| && (forall j :: 0 <= j < |t| ==> t[j] == s[k + j])
    ensures AllSpace(s, 0, k) && AllSpace(s, k + |t|, |s|)
  {
    k := |s| - |d|;
    forall j | 0 <= j < |t| ensures t[j] == s[k + j] {
      assert t[j] == d[j];
    }
    forall i | k + |t| <= i < |s| ensures IsSpace(s[i]) {
      assert s[i] == d[i - k];
    }
  }

  /**
   * `split(/\s+/)`: the pieces between maximal whitespace runs.  A leading
   * or trailing run gives an empty first or last piece, and `''` splits
   * into `['']`.
   */
  function SplitSpaces(s: string): (parts: seq<string>)
    ensures |parts| >= 1
    decreases |s|
  {
    if s == [] then [""]
    else if IsSpace(s[0]) then [""] + SplitSpaces(DropSpaces(s))
    else
      var rest := SplitSpaces(s[1..]);
      [[s[0]] + rest[0]] + rest[1..]
  }

  /** No piece of `split(/\s+/)` contains whitespace. */
  lemma {:induction false} SplitPiecesNoSpace(s: string)
    ensures forall i :: 0 <= i < |SplitSpaces(s)| ==> NoSpace(SplitSpaces(s)[i])
    decreases |s|
  {
    if s == [] {
    } else if IsSpace(s[0]) {
      var rest := SplitSpaces(DropSpaces(s));
      SplitPiecesNoSpace(DropSpaces(s));
      assert SplitSpaces(s) == [""] + rest;
      forall i | 1 <= i < |SplitSpaces(s)| ensures NoSpace(SplitSpaces(s)[i]) {
        assert SplitSpaces(s)[i] == rest[i - 1];
      }
    } else {
      var rest := SplitSpaces(s[1..]);
      SplitPiecesNoSpace(s[1..]);
      var parts := [[s[0]] + rest[0]] + rest[1..];
      assert SplitSpaces(s) == parts;
      assert NoSpace(rest[0]);
      assert NoSpace(parts[0]) by {
        forall j | 0 <= j < |parts[0]| ensures !IsSpace(parts[0][j]) {
          if j > 0 { assert parts[0][j] == rest[0][j - 1]; }
        }
      }
      forall i | 1 <= i < |parts| ensures NoSpace(parts[i]) {
        assert parts[i] == rest[i];
      }
    }
  }

  /** Every whitespace run replaced by a single space: the reference for `split(/\s+/).join(' ')`. */
  function Collapse(s: string): string
    decreases |s|
  {
    if s == [] then ""
    else if IsSpace(s[0]) then " " + Collapse(DropSpaces(s))
    else [s[0]] + Collapse(s[1..])
  }

  /** `join(' ')` is PHP's `implode(' ', ...)`: `''` for no pieces, no separator around a single one. */
  function Join(parts: seq<string>): string {
    PhpStrings.Implode(' ', parts)
  }

  /** Splitting on whitespace and joining with one space collapses every whitespace run. */
  lemma {:induction false} JoinSplit(s: string)
    ensures Join(SplitSpaces(s)) == Collapse(s)
    decreases |s|
  {
    if s == [] {
    } else if IsSpace(s[0]) {
      var d := DropSpaces(s);
      var rest := SplitSpaces(d);
      JoinSplit(d);
      assert SplitSpaces(s) == [""] + rest;
      assert Collapse(s) == " " + Collapse(d);
      JoinAfterEmpty(rest);
    } else {
      var rest := SplitSpaces(s[1..]);
      JoinSplit(s[1..]);
      assert SplitSpaces(s) == [[s[0]] + rest[0]] + rest[1..];
      assert Collapse(s) == [s[0]] + Collapse(s[1..]);
      PhpStrings.ImplodeHead(' ', s[0], rest);
    }
  }

  /** An empty first piece leaves a lone space in front of the join of the others. */
  lemma JoinAfterEmpty(parts: seq<string>)
    requires |parts| >= 1
    ensures Join([""] + parts) == " " + Join(parts)
  {
    assert ([""] + parts)[1..] == parts;
  }

  /** The first piece is the leading whitespace-free prefix: it ends at the first whitespace or at the end. */
  lemma {:induction false} FirstPiece(s: string)
    ensures var p := SplitSpaces(s)[0];
            |p| <= |s| && s[..|p|] == p && (|p| < |s| ==> IsSpace(s[|p|]))
    decreases |s|
  {
    if s != [] && !IsSpace(s[0]) {
      FirstPiece(s[1..]);
      var p := SplitSpaces(s[1..])[0];
      assert s[..|p| + 1] == [s[0]] + s[1..][..|p|];
    }
  }

  /** A string splits into one piece exactly when it has no whitespace. */
  lemma {:induction false} SplitCount(s: string)
    ensures |SplitSpaces(s)| == 1 <==> NoSpace(s)
    decreases |s|
  {
    if s != [] && !IsSpace(s[0]) {
      SplitCount(s[1..]);
      assert NoSpace(s) <==> NoSpace(s[1..]) by {
        if NoSpace(s[1..]) {
          forall j | 0 <= j < |s| ensures !IsSpace(s[j]) {
            if j > 0 { assert s[j] == s[1..][j - 1]; }
          }
        }
      }
    }
  }

  /** Without trailing whitespace, every piece after the first is non-empty. */
  lemma {:induction false} LaterPiecesNonEmpty(s: string)
    requires s == [] || !IsSpace(s[|s| - 1])
    ensures forall i :: 1 <= i < |SplitSpaces(s)| ==> SplitSpaces(s)[i] != ""
    decreases |s|
  {
    if s == [] {
    } else if IsSpace(s[0]) {
      var d := DropSpaces(s);
      DropSpacesCutsSpace(s);
      assert d != [] && d[|d| - 1] == s[|s| - 1];
      LaterPiecesNonEmpty(d);
    } else {
      LaterPiecesNonEmpty(s[1..]);
    }
  }

  /** A non-empty string without whitespace at either end splits into non-empty pieces. */
  lemma PiecesOfTrimmed(t: string)
    requires Trimmed(t) && t != []
    ensures forall i :: 0 <= i < |SplitSpaces(t)| ==> SplitSpaces(t)[i] != ""
  {
    LaterPiecesNonEmpty(t);
  }

  /**
   * `toUpperCase` on one character, with the full case mapping for the
   * Basic Latin and Latin-1 Supplement blocks (where `ß` becomes `SS`);
   * other characters are kept as they are.
   */
  function UpperChar(c: char): (u: string)
    ensures 1 <= |u| <= 2
    ensures ('a' <= c <= 'z') ==> u == [(c as int - 32) as char]
    ensures c < '\U{80}' ==> |u| == 1
  {
    if 'a' <= c <= 'z' then [(c as int - 32) as char]
    else if c == '\U{B5}' then ['\U{39C}']
    else if c == '\U{DF}' then "SS"
    else if '\U{E0}' <= c <= '\U{FE}' && c != '\U{F7}' then [(c as int - 32) as char]
    else if c == '\U{FF}' then ['\U{178}']
    else [c]
  }

  /** `toUpperCase`, character by character; it may lengthen the string. */
  function ToUpper(s: string): (u: string)
    ensures |s| <= |u| <= 2 * |s|
    decreases |s|
  {
    if s == [] then [] else UpperChar(s[0]) + ToUpper(s[1..])
  }
}
