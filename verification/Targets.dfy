/** Which port and which path a proxied request is for (src/proxy.rs, `split_target`, behind the
    routing of src/main.rs). */
module Targets {
  import opened Wrappers
  import opened Text
  import opened Numbers
  import opened Http
  import opened HttpRequests
  import opened Proxy
  import opened Tunnel

  /** s is the numeral of a port, perhaps behind a plus sign. */
  ghost predicate NamesPort(s: string, port: nat) {
    && 0 < port < 0x1_0000
    && (IsNumeralOf(s, port) || exists digits :: s == "+" + digits && IsNumeralOf(digits, port))
  }

  lemma NumeralsStartWithDigits(s: string, n: nat)
    requires IsNumeralOf(s, n)
    ensures s != "" && '0' <= s[0] <= '9'
  {
    ReadIffNumeral(s, n);
  }

  lemma {:induction false} ReadIsDecimal(s: string)
    ensures Read(s, 10).Some? ==> IsDecimal(s)
    decreases |s|
  {
    if Read(s, 10).Some? && |s| > 1 {
      ReadIsDecimal(s[..|s| - 1]);
    }
  }

  lemma PortIff(s: string, port: nat)
    ensures ParsePort(s) == Some(port) <==> NamesPort(s, port)
  {
    var signed := s != "" && s[0] == '+';
    var digits := if signed then s[1..] else s;
    if signed {
      assert s == "+" + digits;
    }
    ReadIsDecimal(digits);
    ReadIffNumeral(digits, port);
    hide Read;
    hide IsNumeralOf;
    if NamesPort(s, port) {
      if IsNumeralOf(s, port) {
        NumeralsStartWithDigits(s, port);
      } else {
        var d :| s == "+" + d && IsNumeralOf(d, port);
        assert d == digits;
      }
    }
  }

  predicate NoSlash(segments: seq<string>) {
    forall k :: 0 <= k < |segments| ==> '/' !in segments[k]
  }

  /** The target is found if and only if the first segment names a port, and it is that port. The
      path starts with a slash and has the segments behind the port as its own; with none of them
      it is "/". */
  lemma TargetIff(segments: seq<string>)
    requires NoSlash(segments)
    ensures SplitTarget(segments).Some? <==> segments != [] && exists port: nat :: NamesPort(segments[0], port)
    ensures SplitTarget(segments).Some? ==>
      var (port, path) := SplitTarget(segments).value;
      && NamesPort(segments[0], port)
      && path != "" && path[0] == '/'
      && (|segments| == 1 ==> path == "/")
      && (|segments| > 1 ==> Split(path[1..], "/") == segments[1..])
  {
    if segments != [] {
      forall port: nat ensures ParsePort(segments[0]) == Some(port) <==> NamesPort(segments[0], port) {
        PortIff(segments[0], port);
      }
      hide ParsePort;
      hide NamesPort;
      if |segments| > 1 {
        SplitJoinChar(segments[1..], '/');
        assert ("/" + Join(segments[1..], "/"))[1..] == Join(segments[1..], "/");
      }
    }
  }

  // ---- the target in a whole path --------------------------------------------------------

  /** s without the slashes at its end. */
  function TrimTail(s: string): (t: string)
    ensures t <= s && (t == "" || t[|t| - 1] != '/')
    ensures forall i :: |t| <= i < |s| ==> s[i] == '/'
  {
    if s != "" && s[|s| - 1] == '/' then TrimTail(s[..|s| - 1]) else s
  }

  lemma {:induction false} OnlyTheTail(s: string)
    requires s == "" || s[0] != '/'
    ensures TrimSlashes(s) == TrimTail(s)
    decreases |s|
  {
    if s != "" && s[|s| - 1] == '/' {
      OnlyTheTail(s[..|s| - 1]);
    }
  }

  lemma OneSlashLess(s: string)
    ensures TrimTail(s + "/") == TrimTail(s)
  {
    assert (s + "/")[..|s|] == s;
  }

  lemma {:induction false} TailBehind(a: string, rest: string)
    requires a != "" && a[|a| - 1] != '/'
    ensures TrimTail(a + "/" + rest) == if TrimTail(rest) == "" then a else a + "/" + TrimTail(rest)
    decreases |rest|
  {
    if rest == "" {
      OneSlashLess(a);
      assert a + "/" + rest == a + "/";
    } else if rest[|rest| - 1] == '/' {
      var less := rest[..|rest| - 1];
      TailBehind(a, less);
      OneSlashLess(a + "/" + less);
      hide TrimTail;
      assert rest == less + "/";
      assert a + "/" + rest == a + "/" + less + "/";
      OneSlashLess(less);
    } else {
      assert (a + "/" + rest)[|a + "/" + rest| - 1] == rest[|rest| - 1];
    }
  }

  lemma FirstSegment(first: string, rest: string)
    requires '/' !in first
    ensures Split(first + "/" + rest, "/") == [first] + Split(rest, "/")
  {
    FirstChar(first, '/', rest);
    hide Find;
    var s := first + "/" + rest;
    assert s[..|first|] == first && s[|first| + 1..] == rest;
  }

  lemma {:induction false} SplitBehind(parts: seq<string>, rest: string)
    requires parts != [] && NoSlash(parts)
    ensures Split(Join(parts, "/") + "/" + rest, "/") == parts + Split(rest, "/")
    decreases |parts|
  {
    hide Split;
    if |parts| == 1 {
      FirstSegment(parts[0], rest);
      assert [parts[0]] == parts;
    } else {
      var later := Join(parts[1..], "/") + "/" + rest;
      SplitBehind(parts[1..], rest);
      FirstSegment(parts[0], later);
      assert Join(parts, "/") + "/" + rest == parts[0] + "/" + later;
      assert [parts[0]] + (parts[1..] + Split(rest, "/")) == parts + Split(rest, "/");
    }
  }

  lemma {:induction false} JoinSplit(s: string)
    ensures Join(Split(s, "/"), "/") == s
    decreases |s|
  {
    var found := Find(s, "/");
    if found.Some? {
      var i := found.value;
      JoinSplit(s[i + 1..]);
      var parts := Split(s, "/");
      assert parts[1..] == Split(s[i + 1..], "/");
      assert s == s[..i] + "/" + s[i + 1..];
    }
  }

  lemma {:induction false} JoinEnds(parts: seq<string>)
    requires parts != [] && NoSlash(parts) && parts[0] != "" && parts[|parts| - 1] != ""
    ensures var s := Join(parts, "/"); s != "" && s[0] == parts[0][0] && s[|s| - 1] != '/'
    decreases |parts|
  {
    if |parts| == 2 {
      assert parts[1..] == [parts[1]];
    } else if |parts| > 2 {
      var last := parts[|parts| - 1];
      var later := parts[1..];
      JoinTail(later);
      assert later[|later| - 1] == last;
    }
  }

  lemma {:induction false} JoinTail(parts: seq<string>)
    requires parts != [] && parts[|parts| - 1] != "" && '/' !in parts[|parts| - 1]
    ensures var s := Join(parts, "/"); s != "" && s[|s| - 1] != '/'
    decreases |parts|
  {
    if |parts| > 1 {
      JoinTail(parts[1..]);
    }
  }

  /** What stands in front of the target in a routed path, and the target's port. */
  predicate IsRoute(front: seq<string>, port: string) {
    && front != [] && NoSlash(front) && front[0] != ""
    && '/' !in port && port != ""
  }

  function PathBehind(front: seq<string>, port: string, rest: string): string
    requires front != []
  {
    "/" + Join(front, "/") + "/" + port + "/" + rest
  }

  /** The segments of rest that routing leaves. */
  function TailOf(rest: string): seq<string> {
    if TrimTail(rest) == "" then [] else Split(TrimTail(rest), "/")
  }

  lemma SegmentsBehind(front: seq<string>, port: string, rest: string)
    requires IsRoute(front, port)
    ensures Segments(PathBehind(front, port, rest)) == front + [port] + TailOf(rest)
  {
    var parts := front + [port];
    var joined := Join(parts, "/");
    JoinMore(front, port);
    JoinEnds(parts);
    var text := joined + "/" + rest;
    assert PathBehind(front, port, rest)[1..] == text;
    assert TrimSlashes(PathBehind(front, port, rest)) == TrimSlashes(text);
    OnlyTheTail(text);
    TailBehind(joined, rest);
    if TrimTail(rest) == "" {
      SplitJoinChar(parts, '/');
      assert parts + [] == parts;
    } else {
      SplitBehind(parts, TrimTail(rest));
    }
  }

  lemma {:induction false} JoinMore(front: seq<string>, last: string)
    requires front != []
    ensures Join(front + [last], "/") == Join(front, "/") + "/" + last
    decreases |front|
  {
    var parts := front + [last];
    if |front| > 1 {
      assert parts[1..] == front[1..] + [last];
      JoinMore(front[1..], last);
    } else {
      assert parts[1..] == [last];
    }
  }

  /** A path /<front>/<port>/<rest> is forwarded to that port as /<rest>, without the slashes at its
      end: routing trims them off the path, so the backend is asked for another path exactly if rest
      ends with a slash. Slashes inside stay, doubled ones too. */
  lemma ForwardedIsTheRest(front: seq<string>, digits: string, port: nat, rest: string)
    requires IsRoute(front, digits) && NamesPort(digits, port)
    ensures |front| <= |Segments(PathBehind(front, digits, rest))|
    ensures SplitTarget(Segments(PathBehind(front, digits, rest))[|front|..]) == Some((port, "/" + TrimTail(rest)))
    ensures TrimTail(rest) == rest <==> rest == "" || rest[|rest| - 1] != '/'
  {
    SegmentsBehind(front, digits, rest);
    TargetBehind(digits, port, TrimTail(rest));
    var tail := TailOf(rest);
    hide TailOf;
    hide Segments;
    hide SplitTarget;
    hide NamesPort;
    BehindFront(front, [digits] + tail);
    Regroup(front, [digits], tail);
  }

  lemma BehindFront(front: seq<string>, later: seq<string>)
    ensures (front + later)[|front|..] == later
  {
  }

  lemma TargetBehind(digits: string, port: nat, kept: string)
    requires NamesPort(digits, port)
    ensures SplitTarget([digits] + if kept == "" then [] else Split(kept, "/")) == Some((port, "/" + kept))
  {
    PortIff(digits, port);
    hide ParsePort;
    hide NamesPort;
    hide Split;
    if kept == "" {
      assert [digits] + [] == [digits] && "/" + "" == "/";
    } else {
      JoinSplit(kept);
      assert ([digits] + Split(kept, "/"))[1..] == Split(kept, "/");
    }
  }

  /** So an accepted request for such a path is replayed to the backend as a request for /<rest>. */
  lemma ProxiedPathArrives(r: Request, front: seq<string>, digits: string, port: nat, rest: string,
                           order: seq<string>, lossy: Lossy)
    requires IsRoute(front, digits) && NamesPort(digits, port)
    requires Clean(r, lossy) && r.path == PathBehind(front, digits, rest) && Lists(order, r.headers)
    ensures var path := "/" + TrimTail(rest);
      var back := ParseHead(HeadText(r, path, order), lossy);
      back.Ok? && IsReplayOf(back.value, r, path)
  {
    ForwardedIsTheRest(front, digits, port, rest);
    hide Segments;
    hide SplitTarget;
    hide ParseHead;
    hide HeadText;
    hide IsReplayOf;
    hide Clean;
    RoundTripOf(r, |front|, order, lossy);
  }
}
