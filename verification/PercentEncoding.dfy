/** Percent-encoding of request parameters (src/bx_net.c:542-744): one pass
    measures, one fills. Decoding is section 2.1 of RFC 3986. */
module PercentEncoding {
  import opened Sequences

  /** A C char as a byte. */
  type bytechar = c: char | c < 256 as char witness 'a'

  type Bytes = seq<bytechar>

  /** The escape of a character, or nothing for one that stays as it is. */
  function EscapeOf(c: bytechar): string {
    match c
    case '~' => "%7E"
    case '!' => "%21"
    case '#' => "%23"
    case '$' => "%24"
    case '&' => "%26"
    case '(' => "%28"
    case ')' => "%29"
    case '*' => "%2A"
    case '+' => "%2B"
    case ',' => "%2C"
    case '/' => "%2F"
    case ':' => "%3A"
    case ';' => "%3B"
    case '=' => "%3D"
    case '?' => "%3F"
    case '@' => "%40"
    case '[' => "%5B"
    case ']' => "%5D"
    case '\"' => "%22"
    case '%' => "%25"
    case '-' => "%2D"
    case '.' => "%2E"
    case '<' => "%3C"
    case '>' => "%3E"
    case '^' => "%5E"
    case '`' => "%60"
    case '{' => "%7B"
    case '|' => "%7C"
    case '}' => "%7D"
    case '_' => "%5F"
    case '\'' => "%27"
    case '\\' => "%5C"
    case _ => if c >= 128 as char then ['%', HexDigit(c as int / 16), HexDigit(c as int % 16)] else ""
  }

  function HexDigit(n: int): char
    requires 0 <= n < 16
  {
    if n < 10 then '0' + n as char else 'A' + (n - 10) as char
  }

  predicate IsEscaped(c: bytechar) {
    EscapeOf(c) != ""
  }

  function Piece(c: bytechar): string {
    if IsEscaped(c) then EscapeOf(c) else [c]
  }

  function Encoded(value: Bytes): string {
    if value == [] then "" else Piece(value[0]) + Encoded(value[1..])
  }

  // ---- decoding

  predicate IsHex(c: char) {
    '0' <= c <= '9' || 'A' <= c <= 'F' || 'a' <= c <= 'f'
  }

  function HexValue(c: char): int
    requires IsHex(c)
  {
    if c <= '9' then (c - '0') as int else if c <= 'F' then (c - 'A') as int + 10 else (c - 'a') as int + 10
  }

  function Decoded(s: string): string {
    if s == "" then ""
    else if |s| >= 3 && s[0] == '%' && IsHex(s[1]) && IsHex(s[2]) then
      [(16 * HexValue(s[1]) + HexValue(s[2])) as char] + Decoded(s[3..])
    else [s[0]] + Decoded(s[1..])
  }

  /** Every escape in the table is the one of the standard: the two upper-case hex digits of the byte. */
  lemma EscapeIsHex(c: bytechar)
    ensures IsEscaped(c) ==> EscapeOf(c) == ['%', HexDigit(c as int / 16), HexDigit(c as int % 16)]
  {
  }

  lemma HexRoundTrip(n: int)
    requires 0 <= n < 16
    ensures IsHex(HexDigit(n)) && HexValue(HexDigit(n)) == n
  {
  }

  /** Decoding undoes encoding, for every text. */
  lemma {:induction false} DecodeEncoded(value: Bytes)
    ensures Decoded(Encoded(value)) == value
  {
    if value == [] {
    } else {
      var c, rest := value[0], Encoded(value[1..]);
      DecodeEncoded(value[1..]);
      EscapeIsHex(c);
      if IsEscaped(c) {
        HexRoundTrip(c as int / 16);
        HexRoundTrip(c as int % 16);
        assert Encoded(value)[3..] == rest;
      } else {
        assert Encoded(value)[1..] == rest;
      }
    }
  }

  /** No two texts are encoded alike. */
  lemma Injective(a: Bytes, b: Bytes)
    requires Encoded(a) == Encoded(b)
    ensures a == b
  {
    DecodeEncoded(a);
    DecodeEncoded(b);
  }

  predicate IsLetterOrDigit(c: char) {
    'a' <= c <= 'z' || 'A' <= c <= 'Z' || '0' <= c <= '9'
  }

  /** What the table leaves alone: letters, digits, the space and control characters. */
  lemma EscapedExactly(c: bytechar)
    ensures !IsEscaped(c) <==> IsLetterOrDigit(c) || c <= ' ' || c == 127 as char
  {
  }

  /** What is encoded holds nothing but letters, digits, its own percent signs, the
      space and control characters: none that would end or split a parameter. */
  lemma {:induction false} NothingReservedLeft(value: Bytes)
    ensures forall i | 0 <= i < |Encoded(value)| ::
      var c := Encoded(value)[i]; c == '%' || IsLetterOrDigit(c) || c <= ' ' || c == 127 as char
  {
    if value == [] {
    } else {
      EscapeIsHex(value[0]);
      EscapedExactly(value[0]);
      NothingReservedLeft(value[1..]);
    }
  }

  // ---- the two passes

  const NUL: char := '\0'

  /** Writes the piece for one character at a place of the buffer, if there is one
      and it has room; tells whether the piece is an escape. */
  method EncodeChar(url: array?<char>, at: nat, size: nat, c: bytechar) returns (escaped: bool)
    requires url != null ==> at + size <= url.Length
    modifies if url == null then {} else {url}
    ensures escaped == IsEscaped(c) && |Piece(c)| == if escaped then 3 else 1
    ensures url != null && size >= |Piece(c)| ==>
      forall i | 0 <= i < url.Length ::
        url[i] == if at <= i < at + |Piece(c)| then Piece(c)[i - at] else old(url[i])
  {
    EscapeIsHex(c);
    var piece := EscapeOf(c);
    escaped := piece != "";
    if escaped {
      if url != null && size >= 3 {
        url[at], url[at + 1], url[at + 2] := piece[0], piece[1], piece[2];
      }
    } else if url != null && size >= 1 {
      url[at] := c;
    }
  }

  lemma {:induction false} EncodedConcat(a: Bytes, b: Bytes)
    ensures Encoded(a + b) == Encoded(a) + Encoded(b)
  {
    if a == [] {
      assert a + b == b;
    } else {
      assert (a + b)[1..] == a[1..] + b;
      EncodedConcat(a[1..], b);
      Regroup(Piece(a[0]), Encoded(a[1..]), Encoded(b));
    }
  }

  lemma EncodedMore(value: Bytes, i: nat)
    requires i < |value|
    ensures Encoded(value[..i + 1]) == Encoded(value[..i]) + Piece(value[i])
  {
    var c: Bytes := [value[i]];
    assert value[..i + 1] == value[..i] + c;
    EncodedConcat(value[..i], c);
    assert Encoded(c) == Piece(value[i]) by { assert c[1..] == []; }
  }

  lemma {:induction false} EncodedPrefix(value: Bytes, i: nat)
    requires i <= |value|
    ensures |Encoded(value[..i])| <= |Encoded(value)|
    decreases |value| - i
  {
    if i == |value| {
      assert value[..i] == value;
    } else {
      EncodedMore(value, i);
      EncodedPrefix(value, i + 1);
    }
  }

  /** The first pass: how long the encoded text is. */
  method Measure(value: array<bytechar>, ghost n: nat) returns (length: nat)
    requires n < value.Length && value[n] == NUL && forall i | 0 <= i < n :: value[i] != NUL
    ensures length == |Encoded(value[..n])|
  {
    length := 0;
    var i := 0;
    while value[i] != NUL
      invariant i <= n && length == |Encoded(value[..n][..i])|
      decreases n - i
    {
      EncodedMore(value[..n], i);
      assert value[..n][i] == value[i];
      var escaped := EncodeChar(null, 0, 0, value[i]);
      length := length + if escaped then 3 else 1;
      i := i + 1;
    }
    assert value[..n][..n] == value[..n];
  }

  /** Appends the piece for one character to what is written already. */
  method Append(url: array<char>, at: nat, room: nat, c: bytechar, ghost done: string) returns (after: nat, left: nat)
    requires at + room + 1 == url.Length && url[..at] == done && |Piece(c)| <= room && url[at + room] == NUL
    modifies url
    ensures after + left == at + room && url[..after] == done + Piece(c) && url[after + left] == NUL
  {
    var escaped := EncodeChar(url, at, room, c);
    if escaped {
      after, left := at + 3, room - 3;
    } else {
      after, left := at + 1, room - 1;
    }
    assert url[..at] == done;
    assert url[at..after] == Piece(c);
    assert url[..after] == url[..at] + url[at..after];
  }

  method EncodeNext(value: array<bytechar>, url: array<char>, at: nat, room: nat, i: nat, ghost n: nat)
    returns (after: nat, left: nat)
    requires i < n < value.Length && at + room + 1 == url.Length && url[at + room] == NUL
    requires url[..at] == Encoded(value[..n][..i]) && |Encoded(value[..n][..i + 1])| <= at + room
    modifies url
    ensures after + left == at + room && url[..after] == Encoded(value[..n][..i + 1]) && url[after + left] == NUL
  {
    EncodedMore(value[..n], i);
    assert |url[..at]| == at && value[..n][i] == value[i];
    after, left := Append(url, at, room, value[i], Encoded(value[..n][..i]));
  }

  /** Encodes a NUL-terminated text. The buffer measured first is filled exactly:
      the room left never runs short and ends at nothing. */
  method PercentEncode(value: array<bytechar>, ghost n: nat) returns (url: array<char>)
    requires n < value.Length && value[n] == NUL && forall i | 0 <= i < n :: value[i] != NUL
    ensures fresh(url) && url[..] == Encoded(value[..n]) + [NUL]
  {
    ghost var text := value[..n];
    var length := Measure(value, n);
    url := new char[length + 1](_ => NUL);
    var at: nat, room: nat, i := 0, length, 0;
    while value[i] != NUL
      invariant i <= n && at + room == length && url.Length == length + 1
      invariant url[..at] == Encoded(text[..i]) && url[length] == NUL
      decreases n - i
    {
      EncodedPrefix(text, i + 1);
      at, room := EncodeNext(value, url, at, room, i, n);
      i := i + 1;
    }
    assert text[..n] == text;
    assert url[..] == url[..at] + [NUL];
  }
}
