/**
 * The front end's `auth` store: the getters that derive a first name, a
 * last name and initials from the signed-in user's name, the random-string
 * generator behind the PKCE verifier and `state`, and the actions that set
 * and clear the tokens and check a callback before the code exchange.
 */
module AuthStore {
  import opened Common
  import opened JsStrings
  import Base64Url

  // ---------------------------------------------------------------------
  // Name getters, over `state.user?.name` (None for no user or no name)
  // ---------------------------------------------------------------------

  /** `!state.user?.name`: no user, no name, or the empty name. */
  predicate NameMissing(name: Option<string>) {
    name.None? || name.value == ""
  }

  /** `state.user.name.trim().split(/\s+/)`. */
  function NameParts(name: string): (parts: seq<string>)
    ensures |parts| >= 1 && forall i :: 0 <= i < |parts| ==> NoSpace(parts[i])
  {
    SplitPiecesNoSpace(Trim(name));
    SplitSpaces(Trim(name))
  }

  /**
   * `firstName`: the first word of the trimmed name, that is its longest
   * whitespace-free prefix; empty when the name is missing or blank.
   */
  function FirstName(name: Option<string>): (first: string)
    ensures NoSpace(first)
    ensures first == "" <==> name.None? || Trim(name.value) == ""
    ensures name.Some? ==>
              var t := Trim(name.value);
              |first| <= |t| && t[..|first|] == first && (|first| < |t| ==> IsSpace(t[|first|]))
  {
    if NameMissing(name) then ""
    else
      var t := Trim(name.value);
      FirstPiece(t);
      if t == [] then NameParts(name.value)[0]
      else
        PiecesOfTrimmed(t);
        NameParts(name.value)[0]
  }

  /**
   * `lastName`: the words after the first, joined by single spaces; empty
   * exactly when the trimmed name has no whitespace in it.
   */
  function LastName(name: Option<string>): (last: string)
    ensures last == "" <==> name.None? || NoSpace(Trim(name.value))
  {
    if NameMissing(name) then ""
    else
      var parts := NameParts(name.value);
      SplitCount(Trim(name.value));
      if |parts| <= 1 then ""
      else
        LaterPartsJoinNonEmpty(Trim(name.value));
        Join(parts[1..])
  }

  /** The last word of a name that has a last name: the last piece of the trimmed, split name. */
  function LastWord(name: string): (w: string)
    requires LastName(Some(name)) != ""
    ensures w != "" && NoSpace(w)
  {
    var t := Trim(name);
    SplitCount(t);
    PiecesOfTrimmed(t);
    NameParts(name)[|NameParts(name)| - 1]
  }

  /** With whitespace inside a trimmed string, the pieces after the first join to a non-empty string. */
  lemma LaterPartsJoinNonEmpty(t: string)
    requires Trimmed(t) && |SplitSpaces(t)| > 1
    ensures Join(SplitSpaces(t)[1..]) != ""
  {
    var parts := SplitSpaces(t);
    PiecesOfTrimmed(t);
    assert parts[1..][0] == parts[1];
    JoinStartsWithFirst(parts[1..]);
  }

  /** A join is at least as long as its first piece. */
  lemma JoinStartsWithFirst(parts: seq<string>)
    requires |parts| >= 1
    ensures |Join(parts)| >= |parts[0]|
  {
  }

  /** The two getters on a present, non-empty name: the first piece, and the later pieces joined. */
  lemma GettersOnParts(name: string)
    requires name != ""
    ensures FirstName(Some(name)) == NameParts(name)[0]
    ensures LastName(Some(name)) == if |NameParts(name)| <= 1 then "" else Join(NameParts(name)[1..])
  {
  }

  /**
   * First name, then a space and the last name when there is one: this
   * gives back the trimmed name with every whitespace run collapsed to a
   * single space.
   */
  lemma NameRoundTrip(name: Option<string>)
    ensures FirstName(name) + (if LastName(name) != "" then " " + LastName(name) else "")
            == (if name.Some? then Collapse(Trim(name.value)) else "")
  {
    if name.Some? {
      if name.value == "" {
        assert Trim(name.value) == "";
      } else {
        var t := Trim(name.value);
        GettersOnParts(name.value);
        SplitCount(t);
        PartsRoundTrip(t);
      }
    }
  }

  /** The first piece, then a space and the later pieces joined, is the whole join. */
  lemma PartsRoundTrip(t: string)
    ensures var parts := SplitSpaces(t);
            parts[0] + (if |parts| > 1 then " " + Join(parts[1..]) else "") == Collapse(t)
  {
    var parts := SplitSpaces(t);
    JoinSplit(t);
    if |parts| > 1 {
      assert Join(parts) == parts[0] + " " + Join(parts[1..]);
    }
  }

  /** `.filter(part => part.length > 0)`. */
  function NonEmptyParts(parts: seq<string>): (kept: seq<string>)
    ensures forall i :: 0 <= i < |kept| ==> kept[i] != ""
    ensures (forall i :: 0 <= i < |parts| ==> parts[i] != "") ==> kept == parts
    ensures parts == [""] ==> kept == []
    decreases |parts|
  {
    if parts == [] then []
    else if parts[0] == "" then NonEmptyParts(parts[1..])
    else [parts[0]] + NonEmptyParts(parts[1..])
  }

  /** The words `initials` works on: the non-empty pieces of the trimmed, split name. */
  function Words(name: string): (words: seq<string>)
    ensures forall i :: 0 <= i < |words| ==> words[i] != ""
    ensures Trim(name) == "" ==> words == []
    ensures Trim(name) != "" ==> words == NameParts(name)
  {
    var t := Trim(name);
    if t == "" then NonEmptyParts(SplitSpaces(t))
    else
      PiecesOfTrimmed(t);
      NonEmptyParts(SplitSpaces(t))
  }

  /** The upper-cased first character of a word, cut back to one character. */
  function InitialOf(w: string): (c: char)
    requires w != []
    ensures c == UpperChar(w[0])[0]
  {
    assert ToUpper(w[..1]) == UpperChar(w[0]) + ToUpper([]);
    ToUpper(w[..1])[0]
  }

  /**
   * `initials` as written, on the non-empty words: for one word its first
   * two characters (or its only one) upper-cased, for several the
   * upper-cased first characters of the first and the last word.
   * Upper-casing can lengthen a character, so the result can have up to
   * four characters.
   */
  function WordInitialsAsWritten(words: seq<string>): (r: string)
    requires forall i :: 0 <= i < |words| ==> words[i] != ""
    ensures |r| <= 4
    ensures r == "" <==> words == []
    ensures |words| == 1 && |words[0]| == 1 ==> r == UpperChar(words[0][0])
    ensures |words| == 1 && |words[0]| >= 2 ==> r == UpperChar(words[0][0]) + UpperChar(words[0][1])
    ensures |words| >= 2 ==> r == UpperChar(words[0][0]) + UpperChar(words[|words| - 1][0])
  {
    if |words| == 0 then ""
    else if |words| == 1 then
      var w := words[0];
      if |w| >= 2 then UpperOfTwo(w[..2]); ToUpper(w[..2])
      else UpperOfOne(w[..1]); ToUpper(w[..1])
    else
      UpperOfOne(words[0][..1]);
      UpperOfOne(words[|words| - 1][..1]);
      ToUpper(words[0][..1]) + ToUpper(words[|words| - 1][..1])
  }

  /**
   * `initials` as evidently intended, on the non-empty words: the same
   * characters, each upper-cased and cut back to one character, so never
   * more than two.
   */
  function WordInitials(words: seq<string>): (r: string)
    requires forall i :: 0 <= i < |words| ==> words[i] != ""
    ensures |r| <= 2
    ensures r == "" <==> words == []
    ensures words != [] ==> r[0] == UpperChar(words[0][0])[0]
    ensures |words| == 1 ==> |r| == (if |words[0]| >= 2 then 2 else 1)
    ensures |words| == 1 && |words[0]| >= 2 ==> r[1] == UpperChar(words[0][1])[0]
    ensures |words| >= 2 ==> |r| == 2 && r[1] == UpperChar(words[|words| - 1][0])[0]
  {
    if |words| == 0 then ""
    else if |words| == 1 then
      var w := words[0];
      if |w| >= 2 then [InitialOf(w), InitialOf(w[1..])] else [InitialOf(w)]
    else [InitialOf(words[0]), InitialOf(words[|words| - 1])]
  }

  /**
   * The words of a name that is not blank: the first is the first name, the
   * last is the last word, and there is one word exactly when there is no
   * last name.
   */
  lemma NameWords(n: string)
    requires Trim(n) != ""
    ensures Words(n) != [] && Words(n)[0] == FirstName(Some(n))
    ensures |Words(n)| == 1 <==> LastName(Some(n)) == ""
    ensures LastName(Some(n)) != "" ==> Words(n)[|Words(n)| - 1] == LastWord(n)
  {
    var t := Trim(n);
    var k := TrimIsMiddle(n);
    assert |t| <= |n|;
    var parts := NameParts(n);
    assert Words(n) == parts;
    GettersOnParts(n);
    SplitCount(t);
    assert |parts| == 1 <==> NoSpace(t);
  }

  /**
   * `initials` as written: for a name with a last name, the upper-cased
   * first letters of the first name and of the last word; for a single
   * word, its first two characters (or its only one) upper-cased.
   */
  function InitialsAsWritten(name: Option<string>): (r: string)
    ensures |r| <= 4
    ensures r == "" <==> name.None? || Trim(name.value) == ""
    ensures LastName(name) != "" ==> r == UpperChar(FirstName(name)[0]) + UpperChar(LastWord(name.value)[0])
    ensures r != "" && LastName(name) == "" ==>
              var f := FirstName(name);
              r == if |f| >= 2 then UpperChar(f[0]) + UpperChar(f[1]) else UpperChar(f[0])
  {
    if NameMissing(name) then ""
    else if Trim(name.value) == "" then WordInitialsAsWritten(Words(name.value))
    else
      var ws := Words(name.value);
      NameWords(name.value);
      var f := FirstName(name);
      assert ws[0] == f && f != "" && f[0] == ws[0][0];
      WordInitialsAsWritten(ws)
  }

  /**
   * `initials` as evidently intended: the first letter of the first name,
   * then the first letter of the last word or, for a single word, its
   * second character, each upper-cased and cut back to one character.
   */
  function Initials(name: Option<string>): (r: string)
    ensures |r| <= 2
    ensures r == "" <==> name.None? || Trim(name.value) == ""
    ensures r != "" ==> r[0] == UpperChar(FirstName(name)[0])[0]
    ensures LastName(name) != "" ==> |r| == 2 && r[1] == UpperChar(LastWord(name.value)[0])[0]
    ensures r != "" && LastName(name) == "" ==>
              var f := FirstName(name);
              |r| == (if |f| >= 2 then 2 else 1) && (|f| >= 2 ==> r[1] == UpperChar(f[1])[0])
  {
    if NameMissing(name) then ""
    else if Trim(name.value) == "" then WordInitials(Words(name.value))
    else
      var ws := Words(name.value);
      NameWords(name.value);
      var f := FirstName(name);
      assert ws[0] == f && f != "" && f[0] == ws[0][0];
      WordInitials(ws)
  }

  /** Upper-casing two characters is upper-casing each. */
  lemma UpperOfTwo(s: string)
    requires |s| == 2
    ensures ToUpper(s) == UpperChar(s[0]) + UpperChar(s[1])
  {
    assert s[1..][1..] == [];
  }

  /** Upper-casing one character is `UpperChar`. */
  lemma UpperOfOne(s: string)
    requires |s| == 1
    ensures ToUpper(s) == UpperChar(s[0])
  {
  }

  /** Both versions agree on every list of words where upper-casing lengthened no chosen character. */
  lemma WordInitialsAgree(words: seq<string>)
    requires forall i :: 0 <= i < |words| ==> words[i] != ""
    requires |WordInitialsAsWritten(words)| == |WordInitials(words)|
    ensures WordInitials(words) == WordInitialsAsWritten(words)
  {
    if |words| == 1 {
      var w := words[0];
      if |w| >= 2 {
        UpperOfTwo(w[..2]);
        assert w[1..][0] == w[1];
      } else {
        UpperOfOne(w[..1]);
        var u := UpperChar(w[0]);
        assert w[..1][0] == w[0] && |u| == 1 && u == [u[0]];
      }
    } else if |words| >= 2 {
      var first, last := words[0], words[|words| - 1];
      UpperOfOne(first[..1]);
      UpperOfOne(last[..1]);
    }
  }

  /** The two agree on every name where upper-casing lengthened none of the chosen characters. */
  lemma InitialsAgree(name: Option<string>)
    requires |InitialsAsWritten(name)| == |Initials(name)|
    ensures Initials(name) == InitialsAsWritten(name)
  {
    if !NameMissing(name) {
      WordInitialsAgree(Words(name.value));
    }
  }

  /** Upper-casing plain ASCII keeps the length. */
  lemma {:induction false} AsciiUpperKeepsLength(s: string)
    requires forall i :: 0 <= i < |s| ==> s[i] < '\U{80}'
    ensures |ToUpper(s)| == |s|
    decreases |s|
  {
    if s != [] {
      AsciiUpperKeepsLength(s[1..]);
    }
  }

  /** On words in plain ASCII the written initials fit in two characters, so both versions agree. */
  lemma AsciiWordsAgree(words: seq<string>)
    requires forall i :: 0 <= i < |words| ==> words[i] != ""
    requires forall i, j :: 0 <= i < |words| && 0 <= j < |words[i]| ==> words[i][j] < '\U{80}'
    ensures WordInitials(words) == WordInitialsAsWritten(words)
  {
    if |words| == 1 {
      var w := words[0];
      AsciiUpperKeepsLength(if |w| >= 2 then w[..2] else w[..1]);
    } else if |words| >= 2 {
      AsciiUpperKeepsLength(words[0][..1]);
      AsciiUpperKeepsLength(words[|words| - 1][..1]);
    }
    WordInitialsAgree(words);
  }

  /** A string without whitespace splits into itself alone. */
  lemma {:induction false} SplitNoSpace(w: string)
    requires NoSpace(w)
    ensures SplitSpaces(w) == [w]
    decreases |w|
  {
    if w != [] {
      assert NoSpace(w[1..]) by {
        forall j | 0 <= j < |w[1..]| ensures !IsSpace(w[1..][j]) {
          assert w[1..][j] == w[j + 1];
        }
      }
      SplitNoSpace(w[1..]);
      assert [w[0]] + w[1..] == w;
    }
  }

  /** A non-empty name without whitespace is a single word, itself. */
  lemma OneWord(w: string)
    requires w != [] && NoSpace(w)
    ensures Trim(w) == w && Words(w) == [w]
  {
    assert !IsSpace(w[0]) && !IsSpace(w[|w| - 1]);
    assert DropSpaces(w) == w;
    assert TrimEnd(w) == w;
    SplitNoSpace(w);
  }

  /** The single word `ßx`: written initials `SSX`, corrected `SX`. */
  lemma SharpSWord(w: string)
    requires w == "\U{DF}x"
    ensures WordInitialsAsWritten([w]) == "SSX"
    ensures WordInitials([w]) == "SX"
  {
    assert w[..2] == w && w[1..] == "x";
    UpperOfTwo(w);
  }

  /** `ß` upper-cases to `SS`, so the written initials of `ßx` are three characters long. */
  lemma InitialsCanExceedTwo(name: string)
    requires name == "\U{DF}x"
    ensures InitialsAsWritten(Some(name)) == "SSX"
    ensures Initials(Some(name)) == "SX"
  {
    assert NoSpace(name) by {
      assert name[0] == '\U{DF}' && name[1] == 'x';
    }
    OneWord(name);
    SharpSWord(name);
  }

  // ---------------------------------------------------------------------
  // generateRandomString
  // ---------------------------------------------------------------------

  /** The unreserved characters of section 2.3 of RFC 3986, the alphabet of an RFC 7636 `code_verifier`. */
  predicate IsUnreserved(c: char) {
    'A' <= c <= 'Z' || 'a' <= c <= 'z' || '0' <= c <= '9' || c == '-' || c == '.' || c == '_' || c == '~'
  }

  /** A `code_verifier` as section 4.1 of RFC 7636 defines it: 43 to 128 unreserved characters. */
  predicate IsCodeVerifier(s: string) {
    43 <= |s| <= 128 && forall i :: 0 <= i < |s| ==> IsUnreserved(s[i])
  }

  /** `n` consecutive characters from `first` on. */
  function Run(first: char, n: nat): (s: string)
    requires first as int + n < 0xD800
    ensures |s| == n && forall i :: 0 <= i < n ==> s[i] as int == first as int + i
  {
    if n == 0 then [] else Run(first, n - 1) + [(first as int + n - 1) as char]
  }

  /**
   * The alphabet `generateRandomString` draws from: `A` to `Z`, `a` to
   * `z`, `0` to `9`, then `-._~`, in this order.
   */
  const Alphabet: string := Run('A', 26) + Run('a', 26) + Run('0', 10) + "-._~"

  /** `generateRandomString`'s default length. */
  const DefaultLength: nat := 64

  lemma RunsAreUnreserved(upper: string, lower: string, digits: string, s: string)
    requires |upper| == 26 && forall i :: 0 <= i < 26 ==> upper[i] as int == 'A' as int + i
    requires |lower| == 26 && forall i :: 0 <= i < 26 ==> lower[i] as int == 'a' as int + i
    requires |digits| == 10 && forall i :: 0 <= i < 10 ==> digits[i] as int == '0' as int + i
    requires s == upper + lower + digits + "-._~"
    ensures |s| == 66
    ensures forall i :: 0 <= i < |s| ==> IsUnreserved(s[i])
    ensures forall c :: IsUnreserved(c) ==> c in s
  {
    forall i | 0 <= i < |s| ensures IsUnreserved(s[i]) {
      if i < 26 { assert s[i] == upper[i]; }
      else if i < 52 { assert s[i] == lower[i - 26]; }
      else if i < 62 { assert s[i] == digits[i - 52]; }
      else { assert s[i] == "-._~"[i - 62]; }
    }
    forall c | IsUnreserved(c) ensures c in s {
      if 'A' <= c <= 'Z' { assert s[c as int - 'A' as int] == c; }
      else if 'a' <= c <= 'z' { assert s[26 + c as int - 'a' as int] == c; }
      else if '0' <= c <= '9' { assert s[52 + c as int - '0' as int] == c; }
      else { assert s[62..] == "-._~"; }
    }
  }

  /** The alphabet has 66 characters and is exactly the unreserved set. */
  lemma AlphabetIsUnreserved()
    ensures |Alphabet| == 66
    ensures forall i :: 0 <= i < |Alphabet| ==> IsUnreserved(Alphabet[i])
    ensures forall c :: IsUnreserved(c) ==> c in Alphabet
  {
    RunsAreUnreserved(Run('A', 26), Run('a', 26), Run('0', 10), Alphabet);
  }

  /** The character a random byte picks: the byte modulo the alphabet's size, as an index. */
  function Pick(b: Base64Url.byte): (c: char)
    ensures IsUnreserved(c)
  {
    AlphabetIsUnreserved();
    Alphabet[b as int % |Alphabet|]
  }

  /** Any character of a 66-character alphabet is picked by the byte equal to its index. */
  lemma PickedByIndex(alphabet: string, c: char) returns (b: Base64Url.byte)
    requires |alphabet| == 66 && c in alphabet
    ensures alphabet[b as int % |alphabet|] == c
  {
    var k :| 0 <= k < |alphabet| && alphabet[k] == c;
    b := k as Base64Url.byte;
  }

  /** Every unreserved character is the pick of some byte: the generator can produce each of them. */
  lemma PickCoversUnreserved(c: char)
    requires IsUnreserved(c)
    ensures exists b: Base64Url.byte :: Pick(b) == c
  {
    AlphabetIsUnreserved();
    var b := PickedByIndex(Alphabet, c);
    assert Pick(b) == c;
  }

  /** Picks from any bytes, between 43 and 128 of them, form a `code_verifier`. */
  lemma PicksFormVerifier(bytes: seq<Base64Url.byte>, s: string)
    requires |s| == |bytes| && 43 <= |s| <= 128
    requires forall i :: 0 <= i < |s| ==> s[i] == Pick(bytes[i])
    ensures IsCodeVerifier(s)
  {
    forall i | 0 <= i < |s| ensures IsUnreserved(s[i]) {
      assert s[i] == Pick(bytes[i]);
    }
  }

  /**
   * The loop of `generateRandomString`: one character of `chars` per
   * random byte, the byte taken modulo the length of `chars`.
   */
  method Draw(chars: string, randomValues: seq<Base64Url.byte>) returns (result: string)
    requires chars != []
    ensures |result| == |randomValues|
    ensures forall i :: 0 <= i < |result| ==> result[i] == chars[randomValues[i] as int % |chars|]
  {
    result := "";
    var i := 0;
    while i < |randomValues|
      invariant 0 <= i <= |randomValues| && |result| == i
      invariant forall j :: 0 <= j < i ==> result[j] == chars[randomValues[j] as int % |chars|]
    {
      result := result + [chars[randomValues[i] as int % |chars|]];
      i := i + 1;
    }
  }

  /**
   * `generateRandomString(length)`, with the `length` bytes that
   * `crypto.getRandomValues` fills in given as a parameter: the pick of
   * each byte in turn.  With a length from 43 to 128 (the default is 64)
   * the result is a valid `code_verifier`.
   */
  method GenerateRandomString(length: nat, randomValues: seq<Base64Url.byte>) returns (result: string)
    requires |randomValues| == length
    ensures |result| == length
    ensures forall i :: 0 <= i < length ==> result[i] == Pick(randomValues[i])
    ensures 43 <= length <= 128 ==> IsCodeVerifier(result)
  {
    AlphabetIsUnreserved();
    result := Draw(Alphabet, randomValues);
    if 43 <= length <= 128 {
      PicksFormVerifier(randomValues, result);
    }
  }

  /** `generateRandomString()` at its default length, 64: always a valid `code_verifier`. */
  method GenerateDefaultRandomString(randomValues: seq<Base64Url.byte>) returns (result: string)
    requires |randomValues| == DefaultLength
    ensures |result| == 64 && IsCodeVerifier(result)
  {
    result := GenerateRandomString(DefaultLength, randomValues);
  }

  // ---------------------------------------------------------------------
  // The store and its actions
  // ---------------------------------------------------------------------

  /** A JavaScript value the code tells apart as `undefined`, `null` or a string. */
  datatype JsString = Undefined | Null | Str(s: string)

  /** What `sessionStorage.getItem` answers: the stored string, or `null`. */
  function FromStorage(item: Option<string>): JsString {
    if item.Some? then Str(item.value) else Null
  }

  /** The signed-in user as the store keeps it; only the name matters here. */
  datatype StoreUser = StoreUser(name: Option<string>)

  /** How the callback's checks end: rejected, or on to the token request with the stored verifier. */
  datatype CallbackCheck = Rejected | ExchangeWith(codeVerifier: string)

  const InvalidState: string := "Invalid state parameter"
  const MissingVerifier: string := "Missing code verifier"

  class Store {
    var accessToken: Option<string>
    var refreshToken: Option<string>
    var user: Option<StoreUser>
    var isLoading: bool
    var error: Option<string>

    /** The initial `state()`. */
    constructor ()
      ensures accessToken.None? && refreshToken.None? && user.None? && !isLoading && error.None?
    {
      accessToken := None;
      refreshToken := None;
      user := None;
      isLoading := false;
      error := None;
    }

    /** `isAuthenticated`: `!!state.accessToken`. */
    function IsAuthenticated(): (b: bool)
      reads this
      ensures b <==> accessToken.Some? && accessToken.value != ""
    {
      accessToken.Some? && accessToken.value != ""
    }

    /** `state.user?.name`. */
    function UserName(): Option<string>
      reads this
    {
      if user.Some? then user.value.name else None
    }

    /** `setTokens`: both slots set, nothing else. */
    method SetTokens(access: Option<string>, refresh: Option<string>)
      modifies this`accessToken, this`refreshToken
      ensures accessToken == access && refreshToken == refresh
      ensures IsAuthenticated() <==> access.Some? && access.value != ""
    {
      accessToken := access;
      refreshToken := refresh;
    }

    /** `clearAuth`: tokens, user and error cleared; `isLoading` is left alone. */
    method ClearAuth()
      modifies this`accessToken, this`refreshToken, this`user, this`error
      ensures accessToken.None? && refreshToken.None? && user.None? && error.None?
      ensures !IsAuthenticated() && FirstName(UserName()) == "" && Initials(UserName()) == ""
    {
      accessToken := None;
      refreshToken := None;
      user := None;
      error := None;
    }

    /**
     * The checks `handleCallback` makes before the token request: the
     * returned `state` must be strictly equal to the stored one, and a
     * verifier must be stored and non-empty.  A failed check records its
     * message, ends loading and answers `false`; no token is stored either
     * way.
     */
    method HandleCallback(state: JsString, storedState: Option<string>, storedVerifier: Option<string>)
      returns (check: CallbackCheck)
      modifies this`isLoading, this`error
      ensures accessToken == old(accessToken) && refreshToken == old(refreshToken) && user == old(user)
      ensures state != FromStorage(storedState) ==>
                check == Rejected && error == Some(InvalidState) && !isLoading
      ensures state == FromStorage(storedState) && (storedVerifier.None? || storedVerifier.value == "") ==>
                check == Rejected && error == Some(MissingVerifier) && !isLoading
      ensures state == FromStorage(storedState) && storedVerifier.Some? && storedVerifier.value != "" ==>
                check == ExchangeWith(storedVerifier.value) && error.None? && isLoading
    {
      isLoading := true;
      error := None;
      if state != FromStorage(storedState) {
        error := Some(InvalidState);
        isLoading := false;
        return Rejected;
      }
      if storedVerifier.None? || storedVerifier.value == "" {
        error := Some(MissingVerifier);
        isLoading := false;
        return Rejected;
      }
      return ExchangeWith(storedVerifier.value);
    }
  }

  /** A callback whose `state` is missing from the URL is rejected, whatever is stored. */
  lemma MissingStateRejected(storedState: Option<string>)
    ensures Undefined != FromStorage(storedState)
  {
  }
}
