/** The loops of src/http.rs that read a head: `parse_head`, `parse_url`, `urldecode`. Each is
    proved to compute what `Http` says a head, a query and an encoded text stand for. */
module HttpParser {
  import opened Wrappers
  import opened Text
  import opened Http

  method ParseHeaders(lines: seq<string>) returns (r: Result<Headers, HeadError>)
    ensures r == ParseFields(lines, 0, map[])
  {
    var headers: Headers, count := map[], 0;
    for i := 0 to |lines|
      invariant ParseFields(lines[i..], count, headers) == ParseFields(lines, 0, map[])
    {
      var line := lines[i];
      assert lines[i..][0] == line && lines[i..][1..] == lines[i + 1..];
      if line == "" {
        continue;
      }
      count := count + 1;
      if count > MAX_HEADERS {
        return Err(TooManyHeaders);
      }
      var field := ParseField(line);
      if field.Err? {
        return Err(field.error);
      }
      var Field(name, value) := field.value;
      if name in headers {
        if headers[name] != value {
          return Err(Conflict);
        }
        continue;
      }
      headers := headers[name := value];
    }
    r := Ok(headers);
  }

  method ParseHead(head: string, lossy: Lossy) returns (r: Result<Request, HeadError>)
    ensures r == Http.ParseHead(head, lossy)
  {
    if !IsAscii(head) {
      return Err(NonAscii);
    }
    var lines := HeadLines(head);
    var line := ParseRequestLine(lines[0]);
    if line.Err? {
      return Err(line.error);
    }
    var headers := ParseHeaders(lines[1..]);
    if headers.Err? {
      return Err(headers.error);
    }
    r := Finish(line.value, headers.value, lossy);
  }

  method ParseUrl(url: string, lossy: Lossy) returns (path: string, params: map<string, string>, rawQuery: string)
    ensures (path, rawQuery) == PathAndQuery(url)
    ensures params == Params(Split(rawQuery, "&"), map[], lossy)
  {
    var split := SplitOnce(url, "?");
    if split.Some? {
      path, rawQuery := split.value.0, split.value.1;
    } else {
      path, rawQuery := url, "";
    }
    params := map[];
    var pairs := Split(rawQuery, "&");
    for i := 0 to |pairs|
      invariant Params(pairs[i..], params, lossy) == Params(pairs, map[], lossy)
    {
      assert pairs[i..][0] == pairs[i] && pairs[i..][1..] == pairs[i + 1..];
      if pairs[i] == "" {
        continue;
      }
      var pair := SplitOnce(pairs[i], "=");
      var k, v := pairs[i], "";
      if pair.Some? {
        k, v := pair.value.0, pair.value.1;
      }
      var key := Decode(k, lossy);
      var value := Decode(v, lossy);
      params := params[key := value];
    }
  }

  /** One round of `urldecode`: the byte put out, and where it goes on. */
  function DecodeOne(s: string, i: nat): (r: (char, nat))
    requires i < |s|
    ensures i < r.1 <= |s|
  {
    if s[i] == '%' && i + 2 < |s| then
      match HexByte(s[i + 1], s[i + 2])
      case Some(c) => (c, i + 3)
      case None => (s[i], i + 1)
    else if s[i] == '+' then (' ', i + 1)
    else (s[i], i + 1)
  }

  lemma DecodedOne(s: string, i: nat)
    requires i < |s|
    ensures DecodeFrom(s, i) == [DecodeOne(s, i).0] + DecodeFrom(s, DecodeOne(s, i).1)
  {
  }

  method Decode(s: string, lossy: Lossy) returns (r: string)
    ensures r == UrlDecode(s, lossy)
  {
    var out, i := "", 0;
    while i < |s|
      invariant 0 <= i <= |s|
      invariant out + DecodeFrom(s, i) == DecodeFrom(s, 0)
    {
      DecodedOne(s, i);
      var (c, next) := DecodeOne(s, i);
      assert out + ([c] + DecodeFrom(s, next)) == (out + [c]) + DecodeFrom(s, next);
      out, i := out + [c], next;
    }
    assert out + "" == out;
    r := lossy(out);
  }

  // ---- decoding undoes encoding ----------------------------------------------------------

  /** A byte that a client may send as it is. */
  predicate IsPlainByte(c: char) {
    c != '%' && c != '+'
  }

  /** A percent sign and two hexadecimal digits, in upper or lower case. */
  predicate IsEscape(e: string, c: char) {
    |e| == 3 && e[0] == '%' && HexByte(e[1], e[2]) == Some(c)
  }

  /** Both usual spellings of a byte are escapes of it. */
  lemma EscapesOf(c: char)
    requires c < 0x100 as char
    ensures var high, low := Numbers.Digit(c as nat / 16), Numbers.Digit(c as nat % 16);
      IsEscape(['%', high, low], c) && IsEscape(['%', Upper(high), Upper(low)], c)
  {
    HexDigit(c as nat / 16);
    HexDigit(c as nat % 16);
  }

  lemma HexDigit(d: nat)
    requires d < 16
    ensures Numbers.DigitValue(Numbers.Digit(d)) == Some(d) == Numbers.DigitValue(Upper(Numbers.Digit(d)))
    ensures Numbers.Digit(d) != '+' && Upper(Numbers.Digit(d)) != '+'
  {
  }

  /** `enc` spells s: byte by byte as it is, as an escape, or a blank as a plus sign. */
  ghost predicate Spells(enc: string, s: string)
    decreases |s|
  {
    if s == "" then enc == ""
    else
      var c, rest := s[0], s[1..];
      || (IsPlainByte(c) && enc != "" && enc[0] == c && Spells(enc[1..], rest))
      || (c == ' ' && enc != "" && enc[0] == '+' && Spells(enc[1..], rest))
      || (|enc| >= 3 && IsEscape(enc[..3], c) && Spells(enc[3..], rest))
  }

  lemma EscapeIsRead(enc: string, i: nat, c: char)
    requires i + 3 <= |enc| && IsEscape(enc[i..i + 3], c)
    ensures DecodeFrom(enc, i) == [c] + DecodeFrom(enc, i + 3)
  {
    var e := enc[i..i + 3];
    assert enc[i] == e[0] && enc[i + 1] == e[1] && enc[i + 2] == e[2];
    hide HexByte;
  }

  lemma PlainIsRead(enc: string, i: nat, c: char)
    requires i < |enc| && ((IsPlainByte(c) && enc[i] == c) || (c == ' ' && enc[i] == '+'))
    ensures DecodeFrom(enc, i) == [c] + DecodeFrom(enc, i + 1)
  {
    hide HexByte;
  }

  /** However a client chose to encode s, decoding gives s back. */
  lemma {:induction false} DecodingUndoesEncoding(enc: string, i: nat, s: string)
    requires i <= |enc| && Spells(enc[i..], s)
    ensures DecodeFrom(enc, i) == s
    decreases |s|
  {
    hide IsEscape;
    hide IsPlainByte;
    if s == "" {
      assert i == |enc|;
    } else {
      var c, rest, at := s[0], s[1..], enc[i..];
      assert s == [c] + rest;
      if |at| >= 3 && IsEscape(at[..3], c) && Spells(at[3..], rest) {
        assert at[3..] == enc[i + 3..] && at[..3] == enc[i..i + 3];
        EscapeIsRead(enc, i, c);
        DecodingUndoesEncoding(enc, i + 3, rest);
      } else {
        assert at[1..] == enc[i + 1..];
        PlainIsRead(enc, i, c);
        DecodingUndoesEncoding(enc, i + 1, rest);
      }
    }
  }
}
