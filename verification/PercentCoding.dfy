/** Percent-encoding and query parameters (`urlencode`, `urldecode` and `query_param`, oauth.rs), with
    the unreserved characters of section 2.3 of RFC 3986. A string is its UTF-8 bytes. */
module PercentCoding {
  import opened Text

  type Byte = n: nat | n < 256

  type Bytes = seq<Byte>

  const PERCENT: Byte := 37
  const AMPERSAND: Byte := 38
  const PLUS: Byte := 43
  const EQUALS: Byte := 61
  const SPACE: Byte := 32

  predicate IsDigit(b: Byte) {
    48 <= b <= 57
  }

  predicate IsUnreserved(b: Byte) {
    65 <= b <= 90 || 97 <= b <= 122 || IsDigit(b) || b == 45 || b == 95 || b == 46 || b == 126
  }

  /** The upper-case hexadecimal digit of a number below 16. */
  function HexDigit(n: nat): Byte
    requires n < 16
  {
    if n < 10 then 48 + n else 55 + n
  }

  function HexValue(b: Byte): Option<nat> {
    if IsDigit(b) then Some(b - 48)
    else if 65 <= b <= 70 then Some(b - 55)
    else if 97 <= b <= 102 then Some(b - 87)
    else None
  }

  /** `u8::from_str_radix` on two bytes, which also takes a plus sign before a single digit. */
  function HexPair(a: Byte, b: Byte): (r: Option<Byte>)
  {
    if a == PLUS then HexValue(b)
    else
      match (HexValue(a), HexValue(b))
      case (Some(m), Some(n)) => assert m < 16 && n < 16; Some(16 * m + n)
      case _ => None
  }

  function EncodeByte(b: Byte): Bytes {
    if IsUnreserved(b) then [b] else [PERCENT, HexDigit(b / 16), HexDigit(b % 16)]
  }

  function Encode(s: Bytes): Bytes {
    if s == [] then [] else EncodeByte(s[0]) + Encode(s[1..])
  }

  method UrlEncode(s: Bytes) returns (out: Bytes)
    ensures out == Encode(s)
  {
    out := [];
    assert s[0..] == s && [] + Encode(s) == Encode(s);
    for i := 0 to |s|
      invariant Encode(s) == out + Encode(s[i..])
    {
      EncodeStep(s, i);
      Regroup(out, EncodeByte(s[i]), Encode(s[i + 1..]));
      if IsUnreserved(s[i]) {
        out := out + [s[i]];
      } else {
        out := out + [PERCENT, HexDigit(s[i] / 16), HexDigit(s[i] % 16)];
      }
    }
    assert s[|s|..] == [] && out + [] == out;
  }

  lemma EncodeStep(s: Bytes, i: nat)
    requires i < |s|
    ensures Encode(s[i..]) == EncodeByte(s[i]) + Encode(s[i + 1..])
  {
    assert s[i..][1..] == s[i + 1..];
  }

  lemma Regroup(a: Bytes, b: Bytes, c: Bytes)
    ensures a + (b + c) == a + b + c
  {
  }

  /** The pair a percent sign introduces, if two more bytes follow and read as one. */
  function Escape(s: Bytes): Option<Byte>
    requires s != []
  {
    if s[0] == PERCENT && |s| > 2 then HexPair(s[1], s[2]) else None
  }

  function Decode(s: Bytes): Bytes
    decreases |s|
  {
    if s == [] then []
    else if Escape(s).Some? then [Escape(s).value] + Decode(s[3..])
    else [if s[0] == PLUS then SPACE else s[0]] + Decode(s[1..])
  }

  /** `lossy` makes text of the decoded bytes. */
  method UrlDecode(lossy: Bytes -> Bytes, s: Bytes) returns (r: Bytes)
    ensures r == lossy(Decode(s))
  {
    var out: Bytes := [];
    var i := 0;
    assert s[0..] == s && [] + Decode(s) == Decode(s);
    while i < |s|
      invariant i <= |s| && Decode(s) == out + Decode(s[i..])
    {
      ghost var rest, before := s[i..], out;
      if s[i] == PERCENT && i + 2 < |s| {
        var v := HexPair(s[i + 1], s[i + 2]);
        assert Escape(rest) == v;
        if v.Some? {
          assert rest[3..] == s[i + 3..];
          assert Decode(rest) == [v.value] + Decode(s[i + 3..]);
          Regroup(out, [v.value], Decode(s[i + 3..]));
          out := out + [v.value];
          i := i + 3;
          continue;
        }
        out := out + [PERCENT];
      } else if s[i] == PLUS {
        out := out + [SPACE];
      } else {
        out := out + [s[i]];
      }
      assert rest[1..] == s[i + 1..];
      assert Decode(rest) == [out[|before|]] + Decode(s[i + 1..]);
      Regroup(before, [out[|before|]], Decode(s[i + 1..]));
      i := i + 1;
    }
    assert s[i..] == [] && out + [] == out;
    r := lossy(out);
  }

  lemma EncodedByteReadsBack(b: Byte, rest: Bytes)
    ensures Decode(EncodeByte(b) + rest) == [b] + Decode(rest)
  {
    var s := EncodeByte(b) + rest;
    if IsUnreserved(b) {
      assert s[0] == b && s[1..] == rest;
    } else {
      assert s[0] == PERCENT && s[1] == HexDigit(b / 16) && s[2] == HexDigit(b % 16) && s[3..] == rest;
      assert HexValue(HexDigit(b / 16)) == Some(b / 16) && HexValue(HexDigit(b % 16)) == Some(b % 16);
    }
  }

  /** Decoding undoes encoding, byte for byte. */
  lemma {:induction false} DecodeEncode(s: Bytes)
    ensures Decode(Encode(s)) == s
  {
    if s != [] {
      DecodeEncode(s[1..]);
      EncodedByteReadsBack(s[0], Encode(s[1..]));
    }
  }

  /** The round trip of a string: its decoded bytes are text, which `lossy` leaves alone. */
  method RoundTrip(lossy: Bytes -> Bytes, s: Bytes) returns (r: Bytes)
    requires lossy(s) == s
    ensures r == s
  {
    var encoded := UrlEncode(s);
    DecodeEncode(s);
    r := UrlDecode(lossy, encoded);
  }

  /** Encoded text is made of unreserved characters and percent signs, so it holds no delimiter, and a
      text is left as it is exactly when it is unreserved throughout. */
  lemma {:induction false} EncodedIsSafe(s: Bytes)
    ensures forall b | b in Encode(s) :: IsUnreserved(b) || b == PERCENT
    ensures Encode(s) == s <==> forall b | b in s :: IsUnreserved(b)
    ensures |Encode(s)| >= |s|
  {
    if s != [] {
      EncodedIsSafe(s[1..]);
      assert s == [s[0]] + s[1..];
      if IsUnreserved(s[0]) {
        assert Encode(s)[1..] == Encode(s[1..]);
      } else {
        assert Encode(s)[0] == PERCENT && !IsUnreserved(PERCENT);
        assert |Encode(s)| > |s|;
      }
      assert forall b | b in EncodeByte(s[0]) :: IsUnreserved(b) || b == PERCENT;
    }
  }

  // ---- every spelling ------------------------------------------------------------------

  const UPPER := "0123456789ABCDEF"
  const LOWER := "0123456789abcdef"

  /** One byte as a text may write it: itself, a plus sign for a space, or an escape whose two digits
      may each be upper or lower case. */
  datatype Spelling = Itself(b: Byte) | PlusSign | Escaped(b: Byte, upperHigh: bool, upperLow: bool)

  function Digit(n: nat, upper: bool): (c: char)
    requires n < 16
    ensures c as int < 256
  {
    if upper then UPPER[n] else LOWER[n]
  }

  function Written(t: Spelling): Bytes {
    match t
    case Itself(b) => [b]
    case PlusSign => ['+' as int]
    case Escaped(b, upperHigh, upperLow) => ['%' as int, Digit(b / 16, upperHigh) as int, Digit(b % 16, upperLow) as int]
  }

  function Denoted(t: Spelling): Byte {
    match t
    case Itself(b) => b
    case PlusSign => ' ' as int
    case Escaped(b, _, _) => b
  }

  function WrittenAll(ts: seq<Spelling>): Bytes {
    if ts == [] then [] else Written(ts[0]) + WrittenAll(ts[1..])
  }

  function DenotedAll(ts: seq<Spelling>): Bytes {
    if ts == [] then [] else [Denoted(ts[0])] + DenotedAll(ts[1..])
  }

  lemma DigitValue(n: nat, upper: bool)
    requires n < 16
    ensures HexValue(Digit(n, upper) as int) == Some(n) && Digit(n, upper) != '+'
  {
  }

  lemma SpellingReadsBack(t: Spelling, rest: Bytes)
    requires t.Itself? ==> t.b != '%' as int && t.b != '+' as int
    ensures Decode(Written(t) + rest) == [Denoted(t)] + Decode(rest)
  {
    var s := Written(t) + rest;
    if t.Escaped? {
      DigitValue(t.b / 16, t.upperHigh);
      DigitValue(t.b % 16, t.upperLow);
      assert s[0] == PERCENT && s[3..] == rest && Escape(s) == Some(t.b);
    } else {
      assert s[1..] == rest;
    }
  }

  /** Decoding reads every spelling of a text: escapes in either case and plus signs included. */
  lemma {:induction false} DecodeSpelled(ts: seq<Spelling>)
    requires forall t | t in ts && t.Itself? :: t.b != '%' as int && t.b != '+' as int
    ensures Decode(WrittenAll(ts)) == DenotedAll(ts)
  {
    if ts != [] {
      assert ts[0] in ts;
      DecodeSpelled(ts[1..]);
      SpellingReadsBack(ts[0], WrittenAll(ts[1..]));
    }
  }

  predicate IsHexText(c: char) {
    c in "0123456789ABCDEFabcdef"
  }

  lemma HexTextIff(b: Byte)
    ensures IsHexText(b as char) <==> HexValue(b).Some?
  {
    var c := b as char;
    assert c as int == b;
    assert '0' <= c <= '9' <==> IsDigit(b);
  }

  /** A percent sign that no two hexadecimal digits follow, nor a plus sign and one, stands for itself. */
  lemma StrayPercent(rest: Bytes)
    requires |rest| >= 2 ==> !((rest[0] == '+' as int || IsHexText(rest[0] as char)) && IsHexText(rest[1] as char))
    ensures Decode(['%' as int] + rest) == ['%' as int] + Decode(rest)
  {
    var s := ['%' as int] + rest;
    assert s[1..] == rest;
    if |rest| >= 2 {
      HexTextIff(rest[0]);
      HexTextIff(rest[1]);
    }
  }

  /** How a byte is written: letters, digits and four marks as themselves, any other byte as an escape
      in upper case. */
  function Spelled(b: Byte): Spelling {
    var c := b as char;
    if 'A' <= c <= 'Z' || 'a' <= c <= 'z' || '0' <= c <= '9' || c == '-' || c == '_' || c == '.' || c == '~'
    then Itself(b) else Escaped(b, true, true)
  }

  function SpelledAll(s: Bytes): seq<Spelling> {
    Each((b: Byte) => Spelled(b), s)
  }

  lemma ByteIsSpelled(b: Byte)
    ensures EncodeByte(b) == Written(Spelled(b))
  {
    var c := b as char;
    assert c as int == b && '-' as int == 45 && '_' as int == 95 && '.' as int == 46 && '~' as int == 126;
  }

  lemma {:induction false} EncodeIsSpelled(s: Bytes)
    ensures Encode(s) == WrittenAll(SpelledAll(s))
  {
    if s != [] {
      ByteIsSpelled(s[0]);
      EncodeIsSpelled(s[1..]);
    }
  }

  // ---- query parameters ----------------------------------------------------------------

  function IndexOf(s: Bytes, c: Byte): (r: Option<nat>)
    ensures r.Some? ==> r.value < |s| && s[r.value] == c && c !in s[..r.value]
    ensures r.None? <==> c !in s
  {
    if s == [] then None
    else if s[0] == c then Some(0)
    else match IndexOf(s[1..], c)
      case Some(i) => assert s[..i + 1] == [s[0]] + s[1..][..i]; Some(i + 1)
      case None => None
  }

  /** `str::split`, which yields at least one piece. */
  function Split(s: Bytes, c: Byte): seq<Bytes>
    decreases |s|
  {
    match IndexOf(s, c)
    case None => [s]
    case Some(i) => [s[..i]] + Split(s[i + 1..], c)
  }

  /** The value a piece gives to a key, if it has that key. */
  function ValueIn(lossy: Bytes -> Bytes, piece: Bytes, key: Bytes): Option<Bytes> {
    match IndexOf(piece, EQUALS)
    case None => None
    case Some(i) => if piece[..i] == key then Some(lossy(Decode(piece[i + 1..]))) else None
  }

  function FirstValue(lossy: Bytes -> Bytes, pieces: seq<Bytes>, key: Bytes): Option<Bytes> {
    if pieces == [] then None
    else if ValueIn(lossy, pieces[0], key).Some? then ValueIn(lossy, pieces[0], key)
    else FirstValue(lossy, pieces[1..], key)
  }

  function QueryParam(lossy: Bytes -> Bytes, query: Bytes, key: Bytes): Option<Bytes> {
    FirstValue(lossy, Split(query, AMPERSAND), key)
  }

  datatype Param = Param(key: Bytes, value: Bytes)

  function PieceOf(p: Param): Bytes {
    p.key + ['=' as int] + Encode(p.value)
  }

  /** The query that lists parameters in order. */
  function QueryOf(params: seq<Param>): Bytes {
    if params == [] then []
    else if |params| == 1 then PieceOf(params[0])
    else PieceOf(params[0]) + ['&' as int] + QueryOf(params[1..])
  }

  /** The first parameter with a key. */
  function Lookup(params: seq<Param>, key: Bytes): Option<Bytes> {
    if params == [] then None
    else if params[0].key == key then Some(params[0].value)
    else Lookup(params[1..], key)
  }

  lemma {:induction false} IndexIs(s: Bytes, c: Byte, n: nat)
    requires n < |s| && s[n] == c && c !in s[..n]
    ensures IndexOf(s, c) == Some(n)
  {
    if n > 0 {
      assert s[..n] == [s[0]] + s[1..][..n - 1];
      IndexIs(s[1..], c, n - 1);
    }
  }

  lemma IndexAfter(free: Bytes, c: Byte, rest: Bytes)
    requires c !in free
    ensures IndexOf(free + [c] + rest, c) == Some(|free|)
  {
    var s := free + [c] + rest;
    assert s[..|free|] == free;
    IndexIs(s, c, |free|);
  }

  lemma PieceHasNoAmpersand(p: Param)
    requires AMPERSAND !in p.key
    ensures AMPERSAND !in PieceOf(p)
  {
    EncodedIsSafe(p.value);
  }

  lemma PieceGives(lossy: Bytes -> Bytes, p: Param, key: Bytes)
    requires EQUALS !in p.key && lossy(p.value) == p.value
    ensures ValueIn(lossy, PieceOf(p), key) == if p.key == key then Some(p.value) else None
  {
    IndexAfter(p.key, EQUALS, Encode(p.value));
    assert PieceOf(p)[..|p.key|] == p.key && PieceOf(p)[|p.key| + 1..] == Encode(p.value);
    DecodeEncode(p.value);
  }

  lemma SplitFirst(piece: Bytes, rest: Bytes)
    requires AMPERSAND !in piece
    ensures Split(piece + [AMPERSAND] + rest, AMPERSAND) == [piece] + Split(rest, AMPERSAND)
    ensures Split(piece, AMPERSAND) == [piece]
  {
    IndexAfter(piece, AMPERSAND, rest);
    var s := piece + [AMPERSAND] + rest;
    assert s[..|piece|] == piece && s[|piece| + 1..] == rest;
  }

  lemma FirstOfPieces(lossy: Bytes -> Bytes, piece: Bytes, rest: seq<Bytes>, key: Bytes)
    ensures var v := ValueIn(lossy, piece, key);
      FirstValue(lossy, [piece] + rest, key) == if v.Some? then v else FirstValue(lossy, rest, key)
  {
    assert ([piece] + rest)[1..] == rest;
  }

  /** Reading a parameter back from a query built of encoded values gives the value of the first with
      that key, and none when there is none. */
  lemma {:induction false} QueryReadsBack(lossy: Bytes -> Bytes, params: seq<Param>, key: Bytes)
    requires forall p | p in params :: '=' as int !in p.key && '&' as int !in p.key && lossy(p.value) == p.value
    ensures QueryParam(lossy, QueryOf(params), key) == Lookup(params, key)
  {
    if params == [] {
      assert Split([], AMPERSAND) == [[]];
      assert FirstValue(lossy, [[]], key) == FirstValue(lossy, [[]][1..], key) == None;
    } else {
      var p, rest := params[0], params[1..];
      PieceHasNoAmpersand(p);
      PieceGives(lossy, p, key);
      SplitFirst(PieceOf(p), QueryOf(rest));
      FirstOfPieces(lossy, PieceOf(p), Split(QueryOf(rest), AMPERSAND), key);
      if |params| > 1 {
        QueryReadsBack(lossy, rest, key);
      } else {
        FirstOfPieces(lossy, PieceOf(p), [], key);
        assert [PieceOf(p)] + [] == [PieceOf(p)] && rest == [];
      }
    }
  }
}
