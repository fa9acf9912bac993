/** Request heads (src/http.rs, `parse_head` and `parse_url`): what the parser makes of a head.

    The functions here say which request a head stands for, branch by branch in the order of the
    code; `HttpParser` holds the loops. `lossy` is the library's lossy UTF-8 decoding, which the
    model does not look into. */
module Http {
  import opened Wrappers
  import opened Text
  import opened Numbers

  const MAX_HEADERS: nat := 100

  type Headers = map<string, string>
  type Lossy = string -> string

  datatype Request = Request(
    verb: string,
    path: string,
    params: map<string, string>,
    rawQuery: string,
    headers: Headers,
    contentLength: nat,
    bodyConsumed: nat,
    keepAlive: bool)

  datatype HeadError =
    | NonAscii | BadRequestLine | BadMethod | BadVersion | BadTarget
    | TooManyHeaders | Folded | NoColon | BadName | IllegalName | IllegalValue | Conflict
    | BothFramings | BadLength | LengthOutOfRange

  datatype RequestLine = RequestLine(verb: string, url: string, version: string)

  datatype Field = Field(name: string, value: string)

  predicate IsAscii(s: string) {
    forall i :: 0 <= i < |s| ==> s[i] < 0x80 as char
  }

  predicate IsAlpha(c: char) {
    'a' <= c <= 'z' || 'A' <= c <= 'Z'
  }

  /** Section 5.6.2 of RFC 9110. */
  predicate IsTokenByte(c: char) {
    IsAlpha(c) || '0' <= c <= '9' || c in "!#$%&'*+-.^_`|~"
  }

  predicate IsToken(s: string) {
    forall i :: 0 <= i < |s| ==> IsTokenByte(s[i])
  }

  predicate IsFieldByte(c: char) {
    !((c < ' ' && c != '\t') || c == 0x7f as char)
  }

  predicate IsFieldText(s: string) {
    forall i :: 0 <= i < |s| ==> IsFieldByte(s[i])
  }

  predicate IsTarget(s: string) {
    s != "" && s[0] == '/' && forall i :: 0 <= i < |s| ==> !(s[i] <= ' ' || s[i] == 0x7f as char)
  }

  predicate IsMethod(s: string) {
    s != "" && forall i :: 0 <= i < |s| ==> IsAlpha(s[i])
  }

  function ParseRequestLine(line: string): Result<RequestLine, HeadError> {
    var parts := Split(line, " ");
    if |parts| != 3 then Err(BadRequestLine)
    else if !IsMethod(parts[0]) then Err(BadMethod)
    else if !(parts[2] == "HTTP/1.0" || parts[2] == "HTTP/1.1") then Err(BadVersion)
    else if !IsTarget(parts[1]) then Err(BadTarget)
    else Ok(RequestLine(parts[0], parts[1], parts[2]))
  }

  /** One header line by itself. */
  function ParseField(line: string): Result<Field, HeadError>
    requires line != ""
  {
    if line[0] == ' ' || line[0] == '\t' then Err(Folded)
    else
      match SplitOnce(line, ":")
      case None => Err(NoColon)
      case Some((name, value)) =>
        if name == "" || name[|name| - 1] == ' ' || name[|name| - 1] == '\t' then Err(BadName)
        else if !IsToken(name) then Err(IllegalName)
        else if !IsFieldText(value) then Err(IllegalValue)
        else Ok(Field(ToLower(name), Trim(value)))
  }

  /** The header lines in order; `count` lines were seen before them and gave `headers`. */
  function ParseFields(lines: seq<string>, count: nat, headers: Headers): Result<Headers, HeadError>
    decreases |lines|
  {
    if lines == [] then Ok(headers)
    else if lines[0] == "" then ParseFields(lines[1..], count, headers)
    else if count + 1 > MAX_HEADERS then Err(TooManyHeaders)
    else
      match ParseField(lines[0])
      case Err(e) => Err(e)
      case Ok(f) =>
        if f.name in headers then
          if headers[f.name] != f.value then Err(Conflict) else ParseFields(lines[1..], count + 1, headers)
        else ParseFields(lines[1..], count + 1, headers[f.name := f.value])
  }

  function ParseLength(headers: Headers): Result<nat, HeadError> {
    if "content-length" !in headers then Ok(0)
    else
      var raw := headers["content-length"];
      if raw == "" || !forall i :: 0 <= i < |raw| ==> '0' <= raw[i] <= '9' then Err(BadLength)
      else
        match Read(raw, 10)
        case Some(n) => if n < U64 then Ok(n) else Err(LengthOutOfRange)
        case None => Err(LengthOutOfRange)
  }

  function KeepAlive(version: string, headers: Headers): bool {
    var connection := if "connection" in headers then ToLower(headers["connection"]) else "";
    if "connection" in headers && Contains(connection, "close") then false
    else if "connection" in headers && Contains(connection, "keep-alive") then true
    else version == "HTTP/1.1"
  }

  /** Rust's `u8::from_str_radix(hex, 16)` on two chars; a leading plus sign is allowed. */
  function HexByte(a: char, b: char): Option<char> {
    var high := if a == '+' then Some(0) else DigitValue(a);
    match (high, DigitValue(b))
    case (Some(h), Some(l)) => Some((16 * h + l) as char)
    case _ => None
  }

  /** `urldecode` from position i on, before the lossy decoding. */
  function DecodeFrom(s: string, i: nat): string
    requires i <= |s|
    decreases |s| - i
  {
    if i == |s| then ""
    else if s[i] == '%' && i + 2 < |s| then
      match HexByte(s[i + 1], s[i + 2])
      case Some(c) => [c] + DecodeFrom(s, i + 3)
      case None => [s[i]] + DecodeFrom(s, i + 1)
    else if s[i] == '+' then " " + DecodeFrom(s, i + 1)
    else [s[i]] + DecodeFrom(s, i + 1)
  }

  function UrlDecode(s: string, lossy: Lossy): string {
    lossy(DecodeFrom(s, 0))
  }

  /** The parameters of a query; a later pair replaces an earlier one of the same key. */
  function Params(pairs: seq<string>, params: map<string, string>, lossy: Lossy): map<string, string>
    decreases |pairs|
  {
    if pairs == [] then params
    else if pairs[0] == "" then Params(pairs[1..], params, lossy)
    else
      var (k, v) := match SplitOnce(pairs[0], "=") case Some(kv) => kv case None => (pairs[0], "");
      Params(pairs[1..], params[UrlDecode(k, lossy) := UrlDecode(v, lossy)], lossy)
  }

  function PathAndQuery(url: string): (string, string) {
    match SplitOnce(url, "?")
    case Some(pq) => pq
    case None => (url, "")
  }

  /** What `parse_head` makes of the headers of a head whose lines are fine. */
  function Finish(line: RequestLine, headers: Headers, lossy: Lossy): Result<Request, HeadError> {
    if "content-length" in headers && "transfer-encoding" in headers then Err(BothFramings)
    else
      match ParseLength(headers)
      case Err(e) => Err(e)
      case Ok(n) =>
        var (path, query) := PathAndQuery(line.url);
        Ok(Request(ToUpper(line.verb), path, Params(Split(query, "&"), map[], lossy), query,
                   headers, n, 0, KeepAlive(line.version, headers)))
  }

  function HeadLines(head: string): (lines: seq<string>)
    ensures lines != []
  {
    Split(TrimBlank(head), CRLF)
  }

  function ParseHead(head: string, lossy: Lossy): Result<Request, HeadError> {
    if !IsAscii(head) then Err(NonAscii)
    else
      var lines := HeadLines(head);
      match ParseRequestLine(lines[0])
      case Err(e) => Err(e)
      case Ok(line) =>
        match ParseFields(lines[1..], 0, map[])
        case Err(e) => Err(e)
        case Ok(headers) => Finish(line, headers, lossy)
  }
}
