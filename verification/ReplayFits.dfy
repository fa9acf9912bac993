/** A replayed head is hardly longer than the head it was made from (src/proxy.rs, `build_head`), so
    a backend with the same limit reads it. */
module ReplayFits {
  import opened Wrappers
  import opened Text
  import opened Numbers
  import opened Http
  import opened HttpRequests
  import opened Lines
  import opened Framing
  import opened Proxy
  import opened Tunnel

  /** The length of some parts with a gap behind each. */
  function Size(parts: seq<string>, gap: nat): nat {
    if parts == [] then 0 else |parts[0]| + gap + Size(parts[1..], gap)
  }

  lemma {:induction false} SplitSize(s: string, sep: string)
    requires sep != ""
    ensures Size(Split(s, sep), |sep|) == |s| + |sep|
    decreases |s|
  {
    var found := Find(s, sep);
    if found.Some? {
      var i := found.value;
      var rest := s[i + |sep|..];
      SplitSize(rest, sep);
      assert Split(s, sep)[0] == s[..i] && Split(s, sep)[1..] == Split(rest, sep);
    } else {
      assert [s][1..] == [];
    }
  }

  lemma {:induction false} JoinSize(parts: seq<string>, sep: string)
    requires parts != []
    ensures |Join(parts, sep)| + |sep| == Size(parts, |sep|)
    decreases |parts|
  {
    if |parts| > 1 {
      JoinSize(parts[1..], sep);
    } else {
      assert parts[1..] == [];
    }
  }

  lemma {:induction false} SizeOfEnd(parts: seq<string>, gap: nat, k: nat)
    requires k <= |parts|
    ensures Size(parts[k..], gap) <= Size(parts, gap)
    decreases |parts|
  {
    if k == 0 {
      assert parts[0..] == parts;
    } else {
      assert parts[1..][k - 1..] == parts[k..];
      SizeOfEnd(parts[1..], gap, k - 1);
    }
  }

  // ---- the request line -----------------------------------------------------------------

  lemma {:induction false} TrimmedIsShorter(s: string)
    ensures |TrimSlashes(s)| <= |s|
    decreases |s|
  {
    if s != "" && s[0] == '/' {
      TrimmedIsShorter(s[1..]);
    } else if s != "" && s[|s| - 1] == '/' {
      TrimmedIsShorter(s[..|s| - 1]);
    }
  }

  /** The path behind a proxy target is no longer than the path it stands in. */
  lemma ForwardedIsShorter(path: string, k: nat)
    requires path != "" && k <= |Segments(path)| && SplitTarget(Segments(path)[k..]).Some?
    ensures |SplitTarget(Segments(path)[k..]).value.1| <= |path|
  {
    var segments := Segments(path)[k..];
    TrimmedIsShorter(path);
    SplitSize(TrimSlashes(path), "/");
    SizeOfEnd(Segments(path), 1, k);
    hide Segments;
    hide TrimSlashes;
    if |segments| > 1 {
      JoinSize(segments[1..], "/");
    }
  }

  lemma RequestLineSize(line: string)
    requires ParseRequestLine(line).Ok?
    ensures var parsed := ParseRequestLine(line).value; |line| == |parsed.verb| + 1 + |parsed.url| + 1 + 8
  {
    var parts := Split(line, " ");
    SplitSize(line, " ");
    assert parts[1..][0] == parts[1] && parts[1..][1..] == parts[2..] && parts[2..][0] == parts[2] && parts[2..][1..] == [];
    assert Size(parts[2..], 1) == |parts[2]| + 1 + Size([], 1);
    assert Size(parts[1..], 1) == |parts[1]| + 1 + Size(parts[2..], 1);
  }

  lemma TargetSize(url: string)
    ensures var (path, query) := PathAndQuery(url);
      |path| + (if query == "" then 0 else 1 + |query|) <= |url|
  {
  }

  // ---- the header lines -----------------------------------------------------------------

  /** The length of some headers, each with three bytes more. */
  ghost function Weight(headers: Headers): nat
    decreases |headers|
  {
    if headers == map[] then 0
    else
      var k :| k in headers;
      |k| + |headers[k]| + 3 + Weight(headers - {k})
  }

  lemma {:induction false} WeightWithout(headers: Headers, k: string)
    requires k in headers
    ensures Weight(headers) == |k| + |headers[k]| + 3 + Weight(headers - {k})
    decreases |headers|
  {
    var j :| j in headers && Weight(headers) == |j| + |headers[j]| + 3 + Weight(headers - {j});
    if j != k {
      WeightWithout(headers - {j}, k);
      WeightWithout(headers - {k}, j);
      assert headers - {j} - {k} == headers - {k} - {j};
    }
  }

  lemma WeightWith(headers: Headers, k: string, v: string)
    requires k !in headers
    ensures Weight(headers[k := v]) == |k| + |v| + 3 + Weight(headers)
  {
    WeightWithout(headers[k := v], k);
    assert headers[k := v] - {k} == headers;
  }

  lemma FieldSize(line: string)
    requires line != "" && ParseField(line).Ok?
    ensures var f := ParseField(line).value; |f.name| + |f.value| + 3 <= |line| + 2
  {
    hide IsToken;
    hide IsFieldText;
  }

  /** The headers that the parser collects are no heavier than the lines they come from. */
  lemma {:induction false} FieldsWeigh(lines: seq<string>, count: nat, before: Headers)
    requires ParseFields(lines, count, before).Ok?
    ensures Weight(ParseFields(lines, count, before).value) <= Weight(before) + Size(lines, 2)
    decreases |lines|
  {
    hide ParseField;
    hide Weight;
    if lines != [] {
      if lines[0] == "" {
        FieldsWeigh(lines[1..], count, before);
      } else {
        var f := ParseField(lines[0]).value;
        FieldSize(lines[0]);
        if f.name in before {
          FieldsWeigh(lines[1..], count + 1, before);
        } else {
          WeightWith(before, f.name, f.value);
          FieldsWeigh(lines[1..], count + 1, before[f.name := f.value]);
        }
      }
    }
  }

  lemma {:induction false} SameForwarded(a: Headers, b: Headers, order: seq<string>)
    requires forall n :: n in order ==> n in a && n in b && a[n] == b[n]
    ensures ForwardedLines(a, order) == ForwardedLines(b, order)
    decreases |order|
  {
    if order != [] {
      assert order[0] in order;
      SameForwarded(a, b, order[1..]);
    }
  }

  /** Printing takes one byte more for each header. */
  lemma {:induction false} PrintedWeighs(headers: Headers, order: seq<string>)
    requires Lists(order, headers)
    ensures |Terminated(ForwardedLines(headers, order))| <= Weight(headers) + |order|
    decreases |order|
  {
    hide Weight;
    hide IsDropped;
    if order != [] {
      var name, later := order[0], order[1..];
      var others := headers - {name};
      assert name in order && forall n :: n in later ==> n in order;
      ListsWithoutFirst(headers, order);
      WeightWithout(headers, name);
      PrintedWeighs(others, later);
      SameForwarded(headers, others, later);
      LinesOfMore(headers, order);
    }
  }

  lemma ListsWithoutFirst(headers: Headers, order: seq<string>)
    requires Lists(order, headers) && order != []
    ensures Lists(order[1..], headers - {order[0]})
  {
    var later, others := order[1..], headers - {order[0]};
    forall n ensures n in later <==> n in others {
      if n in others {
        assert n in order;
        var i :| 0 <= i < |order| && order[i] == n;
        assert later[i - 1] == n;
      }
    }
  }

  // ---- the head -------------------------------------------------------------------------

  lemma HeadSize(head: string, lossy: Lossy)
    requires ParseHead(head, lossy).Ok? && |head| >= 4 && head[|head| - 4..] == BLANK
    ensures var r := ParseHead(head, lossy).value;
      |r.verb| + 10 + |r.path| + (if r.rawQuery == "" then 0 else 1 + |r.rawQuery|) + 2 + Weight(r.headers) <= |head| - 2
  {
    var lines := HeadLines(head);
    var line := ParseRequestLine(lines[0]).value;
    var headers := ParseFields(lines[1..], 0, map[]).value;
    assert Weight(map[]) == 0;
    FinishGives(line, headers, lossy);
    FieldsWeigh(lines[1..], 0, map[]);
    RequestLineSize(lines[0]);
    TargetSize(line.url);
    SplitSize(TrimBlank(head), CRLF);
    TrimmedBlankIsShorter(head);
  }

  lemma {:induction false} TrimmedBlankIsShorter(s: string)
    ensures |TrimBlank(s)| <= |s|
    ensures |s| >= 4 && s[|s| - 4..] == BLANK ==> |TrimBlank(s)| <= |s| - 4
    decreases |s|
  {
    if |s| >= 4 && s[|s| - 4..] == BLANK {
      TrimmedBlankIsShorter(s[..|s| - 4]);
    }
  }

  /** A replayed head is longer than the head that was read by one byte for each header at most:
      the space behind the colon, where the client left it out. */
  lemma ReplayIsHardlyLonger(head: string, k: nat, order: seq<string>, lossy: Lossy)
    requires ParseHead(head, lossy).Ok? && |head| >= 4 && head[|head| - 4..] == BLANK
    requires k <= |Segments(ParseHead(head, lossy).value.path)|
    requires SplitTarget(Segments(ParseHead(head, lossy).value.path)[k..]).Some?
    requires Lists(order, ParseHead(head, lossy).value.headers)
    ensures var r := ParseHead(head, lossy).value;
      |HeadText(r, SplitTarget(Segments(r.path)[k..]).value.1, order)| <= |head| + |order|
  {
    var r := ParseHead(head, lossy).value;
    AcceptedIsClean(head, lossy);
    HeadSize(head, lossy);
    hide ParseHead;
    ForwardedIsShorter(r.path, k);
    PrintedWeighs(r.headers, order);
    hide Segments;
    hide ForwardedLines;
    hide Terminated;
    hide Weight;
  }

  /** So whatever the server accepts and routes to a proxy target arrives, if there is room for that
      within the limit: the backend takes exactly this request off its stream. */
  lemma ProxiedRequestArrives(head: string, k: nat, order: seq<string>, lossy: Lossy) returns (m: Message)
    requires ParseHead(head, lossy).Ok? && |head| >= 4 && head[|head| - 4..] == BLANK
    requires k <= |Segments(ParseHead(head, lossy).value.path)|
    requires SplitTarget(Segments(ParseHead(head, lossy).value.path)[k..]).Some?
    requires Lists(order, ParseHead(head, lossy).value.headers)
    requires |head| + |order| <= MAX_HEADER_BYTES
    ensures var r := ParseHead(head, lossy).value;
      IsReplayOf(m.request, r, SplitTarget(Segments(r.path)[k..]).value.1) && Leads(m, HeadParser(lossy))
  {
    var r := ParseHead(head, lossy).value;
    var path := SplitTarget(Segments(r.path)[k..]).value.1;
    AcceptedIsClean(head, lossy);
    ReplayIsHardlyLonger(head, k, order, lossy);
    hide ParseHead;
    ForwardedPathIsPath(r.path, k);
    m := BackendReadsTheRequest(r, path, order, lossy);
  }
}
